/** kf_factor of codec2-1.2.0/src/kiss_fft.c: the factors a transform's length is split into,
    and what they mean for a transform of full-scale values. */
module FftFactors {
  import opened FixedPoint
  import opened Butterfly
  import opened Fft
  import opened Transform
  import K = KissFft
  import R = Rounding

  /** An entry of the factor buffer: a radix, and the length that is left. */
  datatype Stage = Stage(p: nat, m: nat)

  function NextRadix(p: nat): nat { if p == 4 then 2 else if p == 2 then 3 else p + 2 }

  // ----- What the search has ruled out

  predicate Divides(d: nat, n: nat) { d > 0 && n % d == 0 }

  /** No divisor of n from 2 up to p. */
  ghost predicate NoneBelow(n: nat, p: nat) { forall d :: 2 <= d < p ==> !Divides(d, n) }

  ghost predicate Prime(n: nat) { n >= 2 && NoneBelow(n, n) }

  /** What is known of the length when the search stands at p. */
  ghost predicate Searched(n: nat, p: nat) {
    p == 4 || (p == 2 && !Divides(4, n)) || (p % 2 == 1 && p >= 3 && NoneBelow(n, p))
  }

  /** The search is at a radix it tries, or at the length itself. */
  predicate Trying(n: nat, p: nat, root: nat) { p == 4 || p == 2 || (p % 2 == 1 && 3 <= p <= root) || p == n }

  lemma MulLe(a: nat, b: nat, c: nat, d: nat)
    requires a <= c && b <= d
    ensures a * b <= c * d
  {
    MulMonotone(a, b, d);
    MulMonotone(d, a, c);
  }

  /** A divisor's divisor divides. */
  lemma DividesThrough(d: nat, p: nat, m: nat)
    requires Divides(d, m) && p >= 1
    ensures Divides(d, p * m)
  {
    var q := m / d;
    assert p * m == (p * q) * d;
    ProductModulus(p * q, d);
  }

  lemma ProductModulus(q: nat, d: nat)
    requires d > 0
    ensures (q * d) % d == 0
  {
    var n := q * d;
    QuotientIs(n, d, q, n / d, n % d);
  }

  lemma QuotientIs(n: int, d: int, q: int, k: int, r: int)
    requires d > 0 && n == q * d == k * d + r && 0 <= r < d
    ensures r == 0
  {
    if q > k { MulMonotone(d, k + 1, q); }
    if q < k { MulMonotone(d, q + 1, k); }
  }

  /** A length without divisors up to its root is prime. */
  lemma NoSmallDivisor(n: nat, root: nat)
    requires 2 <= n < (root + 1) * (root + 1) && NoneBelow(n, root + 1)
    ensures Prime(n)
  {
    forall d | 2 <= d < n ensures !Divides(d, n) {
      if Divides(d, n) {
        var e := n / d;
        assert n == e * d;
        CofactorRange(n, d, e);
        ProductModulus(d, e);
        assert Divides(e, n) && Divides(d, n);
        if d > root && e > root { MulLe(root + 1, root + 1, e, d); }
      }
    }
  }

  lemma CofactorRange(n: nat, d: nat, e: nat)
    requires 2 <= d < n && n == e * d
    ensures 2 <= e && n == d * e
  {
    if e < 2 { MulLe(e, d, 1, d); }
  }

  // ----- The order of the radices

  /** Radix p may follow radix x: fours, then at most one two, then odd ones in order. */
  predicate Follows(x: nat, p: nat) { x == 4 || (x == 2 && p % 2 == 1) || (x % 2 == 1 && p % 2 == 1 && x <= p) }

  predicate InOrder(fb: seq<Stage>) { forall i, j :: 0 <= i < j < |fb| ==> Follows(fb[i].p, fb[j].p) }

  /** Each radix is four, two, or an odd prime. */
  ghost predicate Radices(fb: seq<Stage>) {
    forall i :: 0 <= i < |fb| ==> fb[i].p == 4 || fb[i].p == 2 || (fb[i].p % 2 == 1 && Prime(fb[i].p))
  }

  /** Every entry splits the length before it, and the last leaves one. */
  predicate Splits(n: nat, fb: seq<Stage>, rest: nat)
    decreases |fb|
  {
    if fb == [] then n == rest else n == fb[0].p * fb[0].m && Splits(fb[0].m, fb[1..], rest)
  }

  lemma {:induction false} SplitsAgain(n: nat, fb: seq<Stage>, rest: nat, s: Stage)
    requires Splits(n, fb, rest) && rest == s.p * s.m
    ensures Splits(n, fb + [s], s.m)
    decreases |fb|
  {
    if fb == [] {
      assert (fb + [s])[1..] == [];
    } else {
      assert (fb + [s])[1..] == fb[1..] + [s];
      SplitsAgain(fb[0].m, fb[1..], rest, s);
    }
  }

  /** What the radices stored so far allow next, when the search stands at p. */
  predicate Before(fb: seq<Stage>, n: nat, p: nat) {
    forall i :: 0 <= i < |fb| ==> if p == 2 then fb[i].p == 4 || (fb[i].p == 2 && n % 2 == 1) else Follows(fb[i].p, p)
  }

  /** What the factor buffer says between two entries, with n left to split. */
  ghost predicate Entered(n0: nat, fb: seq<Stage>, n: nat) { Splits(n0, fb, n) && InOrder(fb) && Radices(fb) }

  // ----- One step of the search

  /** The search goes on to the next radix, or has shown that the length is prime. */
  lemma Advances(n0: nat, n: nat, p: nat, root: nat, fb: seq<Stage>)
    requires Rooted(n0, root) && 2 <= n <= n0 && Searched(n, p) && Before(fb, n, p) && !Divides(p, n)
    ensures var q := NextRadix(p); if q > root then Prime(n) && Before(fb, n, n) else Searched(n, q) && Before(fb, n, q)
  {
    NextClear(n, p);
    if p % 2 == 1 && n < p { SelfDivides(n); }
    if NextRadix(p) > root { assert Prime(n); }
  }

  lemma NextClear(n: nat, p: nat)
    requires n >= 2 && Searched(n, p) && !Divides(p, n)
    ensures NoneBelow(n, NextRadix(p)) && (p != 4 ==> n % 2 == 1)
  {
    if p % 2 == 1 { NextOdd(n, p); }
  }

  lemma NextOdd(n: nat, p: nat)
    requires n >= 2 && p % 2 == 1 && p >= 3 && NoneBelow(n, p) && !Divides(p, n)
    ensures NoneBelow(n, p + 2) && n % 2 == 1
  {
    assert !Divides(2, n);
    forall d | 2 <= d < p + 2 ensures !Divides(d, n) {
      if d == p + 1 && Divides(d, n) { EvenDivisor(d, n); }
    }
  }

  lemma EvenDivisor(d: nat, n: nat)
    requires d > 0 && d % 2 == 0 && Divides(d, n)
    ensures Divides(2, n)
  {
    var k, q := d / 2, n / d;
    assert n == q * (2 * k) == (q * k) * 2;
    ProductModulus(q * k, 2);
  }

  lemma SelfDivides(n: nat)
    requires n >= 1
    ensures Divides(n, n)
  {}

  lemma PrimeSearched(n: nat)
    requires Prime(n)
    ensures Searched(n, n)
  {
    if n % 2 == 0 && n > 2 { assert Divides(2, n); }
  }

  /** The search at p, for a length that still has to be split. */
  ghost predicate Stands(n: nat, p: nat, root: nat, fb: seq<Stage>) {
    n >= 1 && p >= 1 && Trying(n, p, root) && (n >= 2 ==> Searched(n, p) && Before(fb, n, p))
  }

  /** How much of the search is left. */
  function Ahead(n: nat, p: nat, root: nat): int {
    if p == n then 0 else if p == 4 then root + 10 else if p == 2 then root + 9 else root + 2 - p
  }

  /** The root of a length: a length up to it with no divisor up to the root is prime. */
  ghost predicate Rooted(n0: nat, root: nat) {
    forall n {:trigger Prime(n)} :: 2 <= n <= n0 && NoneBelow(n, root + 1) ==> Prime(n)
  }

  lemma RootIsRooted(n0: nat, root: nat)
    requires n0 < (root + 1) * (root + 1)
    ensures Rooted(n0, root)
  {
    forall n | 2 <= n <= n0 && NoneBelow(n, root + 1) ensures Prime(n) { NoSmallDivisor(n, root); }
  }

  lemma SearchOn(n0: nat, n: nat, p: nat, root: nat, fb: seq<Stage>)
    requires Rooted(n0, root) && n <= n0 && Stands(n, p, root, fb) && !Divides(p, n)
    ensures var q := NextRadix(p);
      var r := if q > root then n else q; Stands(n, r, root, fb) && 0 <= Ahead(n, r, root) < Ahead(n, p, root)
  {
    if p == n { SelfDivides(n); }
    if n >= 2 {
      Advances(n0, n, p, root, fb);
      if NextRadix(p) > root { PrimeSearched(n); }
    }
  }

  /** The inner loop: on to the first radix that divides. */
  method NextFactor(n: nat, p0: nat, root: nat, ghost n0: nat, ghost fb: seq<Stage>) returns (p: nat)
    requires Rooted(n0, root) && n <= n0 && Stands(n, p0, root, fb)
    ensures Divides(p, n) && Stands(n, p, root, fb)
  {
    p := p0;
    while !Divides(p, n)
      invariant Stands(n, p, root, fb)
      decreases Ahead(n, p, root)
    {
      SearchOn(n0, n, p, root, fb);
      p := NextRadix(p);
      if p > root {
        p := n;
      }
    }
  }

  // ----- One entry

  lemma OnlyDivisorOfOne(p: nat)
    requires Divides(p, 1)
    ensures p == 1
  {}

  /** The entry just found keeps what is known of the factor buffer. */
  lemma EntryKeeps(n0: nat, fb: seq<Stage>, n: nat, p: nat, m: nat)
    requires n >= 2 && p >= 1 && n == p * m && Entered(n0, fb, n) && Searched(n, p) && Before(fb, n, p) && Divides(p, n)
    ensures p >= 2 && 1 <= m < n && Entered(n0, fb + [Stage(p, m)], m)
    ensures Searched(m, p) && Before(fb + [Stage(p, m)], m, p)
  {
    RadixFound(n, p);
    CofactorLess(n, p, m);
    SplitsAgain(n0, fb, n, Stage(p, m));
    StillSearched(n, p, m);
    OrderKept(fb, n, p, m);
  }

  lemma OrderKept(fb: seq<Stage>, n: nat, p: nat, m: nat)
    requires n == p * m && Searched(n, p) && Before(fb, n, p) && Divides(p, n) && InOrder(fb)
    ensures InOrder(fb + [Stage(p, m)]) && Before(fb + [Stage(p, m)], m, p)
  {
    if p == 2 && m % 2 == 0 { FourDivides(n, m); }
    if p == 2 { assert n % 2 == 0; }
  }

  lemma CofactorLess(n: nat, p: nat, m: nat)
    requires n >= 2 && n == p * m && p >= 2
    ensures 1 <= m < n
  {}

  lemma FourDivides(n: nat, m: nat)
    requires n == 2 * m && m % 2 == 0
    ensures Divides(4, n)
  {}

  lemma RadixFound(n: nat, p: nat)
    requires n >= 2 && Searched(n, p) && Divides(p, n)
    ensures p == 4 || p == 2 || (p % 2 == 1 && Prime(p))
  {
    if p % 2 == 1 {
      forall d | 2 <= d < p ensures !Divides(d, p) {
        if Divides(d, p) {
          assert n == (n / p) * p;
          DividesThrough(d, n / p, p);
        }
      }
    }
  }

  lemma StillSearched(n: nat, p: nat, m: nat)
    requires n >= 2 && p >= 1 && n == p * m && m >= 1 && Searched(n, p)
    ensures Searched(m, p)
  {
    forall d | 2 <= d && Divides(d, m) ensures Divides(d, n) { DividesThrough(d, p, m); }
  }

  /** What kf_factor keeps: before it is done, and then. */
  ghost predicate Going(n0: nat, fb: seq<Stage>, n: nat, p: nat, root: nat) {
    n <= n0 && Stands(n, p, root, fb) && if n0 >= 2 then n >= 2 && Entered(n0, fb, n) else fb == []
  }

  ghost predicate Gone(n0: nat, fb: seq<Stage>) {
    fb != [] && Splits(n0, fb, 1) && (n0 >= 2 ==> InOrder(fb) && Radices(fb))
  }

  lemma OneMoreEntry(n0: nat, fb: seq<Stage>, n: nat, p: nat, root: nat, m: nat)
    requires Going(n0, fb, n, p, root) && Divides(p, n) && n == p * m
    ensures m >= 1 && if m > 1 then m < n && Going(n0, fb + [Stage(p, m)], m, p, root) else Gone(n0, fb + [Stage(p, m)])
  {
    if n0 >= 2 {
      EntryKeeps(n0, fb, n, p, m);
      if m > 1 { StillTrying(n, p, root, m); }
    } else {
      OnlyDivisorOfOne(p);
    }
  }

  lemma StillTrying(n: nat, p: nat, root: nat, m: nat)
    requires n >= 2 && n == p * m && m > 1 && Trying(n, p, root)
    ensures Trying(m, p, root)
  {
    if p == n { MulLe(n, 2, n, m); }
  }

  /** kf_factor, given the root of the length rounded down, or anything above it: the entries
      split the length down to one, fours first, then at most one two, then odd primes in
      order. */
  method KfFactor(n0: nat, root: nat) returns (facbuf: seq<Stage>)
    requires 1 <= n0 < (root + 1) * (root + 1)
    ensures facbuf != [] && Splits(n0, facbuf, 1)
    ensures n0 >= 2 ==> InOrder(facbuf) && Radices(facbuf)
  {
    RootIsRooted(n0, root);
    var n, p, more := n0, 4, true;
    facbuf := [];
    while more
      invariant n >= 1 && if more then Going(n0, facbuf, n, p, root) else Gone(n0, facbuf)
      decreases n, more
    {
      p := NextFactor(n, p, root, n0, facbuf);
      QuotientOf(n, p);
      OneMoreEntry(n0, facbuf, n, p, root, n / p);
      n := n / p;
      facbuf := facbuf + [Stage(p, n)];
      more := n > 1;
    }
  }

  lemma QuotientOf(n: nat, p: nat)
    requires Divides(p, n)
    ensures n == p * (n / p)
  {}

  // ----- The factor buffer

  function Pow2(k: nat): nat { if k == 0 then 1 else 2 * Pow2(k - 1) }

  lemma {:induction false} AtLeastPow2(n: nat, fb: seq<Stage>)
    requires Splits(n, fb, 1) && Radices(fb)
    ensures Pow2(|fb|) <= n
    decreases |fb|
  {
    if fb != [] {
      assert forall i :: 0 < i < |fb| ==> fb[i] == fb[1..][i - 1];
      AtLeastPow2(fb[0].m, fb[1..]);
      MulLe(2, Pow2(|fb| - 1), fb[0].p, fb[0].m);
    }
  }

  lemma {:induction false} Pow2Grows(i: nat, j: nat)
    requires i <= j
    ensures Pow2(i) <= Pow2(j)
  {
    if i < j { Pow2Grows(i, j - 1); }
  }

  /** The buffer's 32 entries are enough for every length an int can hold. */
  lemma BufferSuffices(n: nat, fb: seq<Stage>)
    requires n < Pow2(31) && Splits(n, fb, 1) && Radices(fb)
    ensures |fb| <= 30
  {
    AtLeastPow2(n, fb);
    if |fb| > 30 { Pow2Grows(31, |fb|); }
  }

  // ----- Powers of two

  predicate PowerOfTwo(n: nat) { n == 1 || (n > 0 && n % 2 == 0 && PowerOfTwo(n / 2)) }

  predicate OnlyTwos(fb: seq<Stage>) { forall i :: 0 <= i < |fb| ==> fb[i].p == 2 || fb[i].p == 4 }

  function FactorsOf(fb: seq<Stage>): Factors
    requires OnlyTwos(fb)
  {
    if fb == [] then One else if fb[0].p == 4 then Times4(FactorsOf(fb[1..])) else Times2(FactorsOf(fb[1..]))
  }

  lemma OddTimesOdd(q: nat, p: nat)
    requires q % 2 == 1 && p % 2 == 1
    ensures (q * p) % 2 == 1
  {
    var j, k := q / 2, p / 2;
    assert q * p == 2 * (2 * (j * k) + j + k) + 1;
  }

  lemma OddProduct(q: nat, p: nat)
    requires p % 2 == 1 && (q * p) % 2 == 0
    ensures q % 2 == 0
  {
    if q % 2 == 1 { OddTimesOdd(q, p); }
  }

  lemma {:induction false} NoOddDivisor(n: nat, p: nat)
    requires PowerOfTwo(n) && p % 2 == 1 && p >= 3
    ensures !Divides(p, n)
  {
    if Divides(p, n) && n > 1 {
      var q := n / p;
      assert n == q * p;
      OddProduct(q, p);
      HalfDivides(n, q, p);
      NoOddDivisor(n / 2, p);
    }
  }

  lemma HalfDivides(n: nat, q: nat, p: nat)
    requires p > 0 && n == q * p && q % 2 == 0
    ensures Divides(p, n / 2)
  {
    assert n / 2 == (q / 2) * p;
    ProductModulus(q / 2, p);
  }

  lemma {:induction false} PowerSplits(n: nat, fb: seq<Stage>)
    requires PowerOfTwo(n) && Splits(n, fb, 1) && Radices(fb)
    ensures OnlyTwos(fb) && Size(FactorsOf(fb)) == n
    decreases |fb|
  {
    if fb != [] {
      var p, m := fb[0].p, fb[0].m;
      if p % 2 == 1 {
        ProductModulus(m, p);
        assert m * p == p * m;
        NoOddDivisor(n, p);
      }
      PowerSplits(m, fb[1..]);
      assert forall i :: 0 < i < |fb| ==> fb[i] == fb[1..][i - 1];
    }
  }

  /** Fours first, then at most one two. */
  predicate FoursFirst(fs: Factors) {
    match fs
    case One => true
    case Times2(rest) => rest == One
    case Times4(rest) => FoursFirst(rest)
  }

  lemma {:induction false} OrderedFactors(fb: seq<Stage>)
    requires OnlyTwos(fb) && InOrder(fb)
    ensures FoursFirst(FactorsOf(fb))
  {
    if fb != [] {
      if |fb| > 1 { assert Follows(fb[0].p, fb[1].p); }
      assert forall i :: 0 < i < |fb| ==> fb[i] == fb[1..][i - 1];
      OrderedFactors(fb[1..]);
    }
  }

  function Pow4(k: nat): nat { if k == 0 then 1 else 4 * Pow4(k - 1) }

  lemma {:induction false} Pow4Grows(i: nat, j: nat)
    requires i <= j
    ensures Pow4(i) <= Pow4(j)
  {
    if i < j { Pow4Grows(i, j - 1); }
  }

  lemma {:induction false} FoursCount(k: int, fs: Factors)
    ensures Pow4(k - Left(k, fs)) <= Size(fs)
  {
    match fs
    case One =>
    case Times2(rest) => FoursCount(k, rest);
    case Times4(rest) => FoursCount(k, rest);
  }

  /** Fewer than k + 1 fours fit into a length below the next power of four, and then no disc
      runs out. */
  lemma {:induction false} ShortEnough(k: nat, fs: Factors)
    requires FoursFirst(fs) && k >= TWO_FROM && Size(fs) < Pow4(k + 1)
    ensures FitsFrom(TWO_FROM, 1, k, fs)
  {
    match fs
    case One =>
    case Times2(rest) =>
    case Times4(rest) =>
      ShortEnough(k, rest);
      FoursCount(k, rest);
      var f := k - Left(k, rest);
      if f >= k { Pow4Grows(k, f); }
  }

  /** The factors kf_factor finds for a power of two make a transform of that length; below
      the (k + 1)-st power of four it can take values of the k-th disc, from the third on. */
  lemma FactorsFit(n: nat, fb: seq<Stage>, k: nat)
    requires n >= 2 && PowerOfTwo(n) && Splits(n, fb, 1) && InOrder(fb) && Radices(fb)
    ensures OnlyTwos(fb) && Size(FactorsOf(fb)) == n && FactorsOf(fb) != One
    ensures k >= TWO_FROM && n < Pow4(k + 1) ==> FitsFrom(TWO_FROM, 1, k, FactorsOf(fb))
  {
    PowerSplits(n, fb);
    OrderedFactors(fb);
    if k >= TWO_FROM && n < Pow4(k + 1) { ShortEnough(k, FactorsOf(fb)); }
  }

  /** No warning, nothing lost, and components in the sample range. */
  predicate Unharmed(h: int, r: Out) {
    r.printed == 0 && !r.lost && forall i :: 0 <= i < |r.s| ==> InSamples(h, r.s[i].r) && InSamples(h, r.s[i].i)
  }

  /** At full scale every power of two up to 8192 is safe: with the factors kf_factor finds,
      a transform of values of the disc of radius SAMP_MAX prints no overflow warning, loses
      nothing, and leaves values of components in the sample range. */
  lemma FullScaleIsSafe(h: int, n: nat, fb: seq<Stage>, inverse: bool, input: seq<Complex>, tw: seq<Complex>,
                        stride: nat,
                        output: seq<Complex>)
    requires h >= 448 && h % 2 == 0 && 2 <= n <= 8192 && PowerOfTwo(n)
    requires Splits(n, fb, 1) && InOrder(fb) && Radices(fb)
    requires |output| == |tw| == n && Advance(n - 1, stride) < |input|
    requires forall i :: 0 <= i < |input| ==> InDisc(h, input[i])
    requires forall i :: 0 <= i < |tw| ==> IsTwiddle(h, tw[i])
    ensures OnlyTwos(fb) && Size(FactorsOf(fb)) == n
    ensures Unharmed(h, Whole(h, inverse, input, tw, FactorsOf(fb), stride, output))
  {
    var fs := FullScaleFactors(n, fb);
    LastInside(n, Size(fs), stride, |input|);
    FullScaleWhole(h, fs, inverse, input, tw, stride, output);
  }

  lemma FullScaleFactors(n: nat, fb: seq<Stage>) returns (fs: Factors)
    requires 2 <= n <= 8192 && PowerOfTwo(n) && Splits(n, fb, 1) && InOrder(fb) && Radices(fb)
    ensures OnlyTwos(fb) && fs == FactorsOf(fb) && Size(fs) == n && FoursFirst(fs) && FitsFrom(TWO_FROM, 1, 6, fs)
  {
    FactorsFit(n, fb, 6);
    SixthPower();
    OrderedFactors(fb);
    fs := FactorsOf(fb);
  }

  lemma LastInside(n: nat, m: nat, stride: nat, len: nat)
    requires n >= 1 && n == m && Advance(n - 1, stride) < len
    ensures Advance(m - 1, stride) < len
  {}

  lemma FullScaleWhole(h: int, fs: Factors, inverse: bool, input: seq<Complex>, tw: seq<Complex>, stride: nat,
                       output: seq<Complex>)
    requires h >= 448 && h % 2 == 0 && FitsFrom(TWO_FROM, 1, 6, fs)
    requires |output| == |tw| == Size(fs) && Advance(Size(fs) - 1, stride) < |input|
    requires forall i :: 0 <= i < |input| ==> InDisc(h, input[i])
    requires forall i :: 0 <= i < |tw| ==> IsTwiddle(h, tw[i])
    ensures Unharmed(h, Whole(h, inverse, input, tw, fs, stride, output))
  {
    FullScaleSafe(h, input, tw, fs);
    WholeNeverOverflows(h, 6, inverse, input, tw, fs, stride, output);
    SilentMeans(h, Left(6, fs), Whole(h, inverse, input, tw, fs, stride, output));
  }

  lemma FullScaleSafe(h: int, input: seq<Complex>, tw: seq<Complex>, fs: Factors)
    requires h >= 448 && h % 2 == 0 && FitsFrom(TWO_FROM, 1, 6, fs)
    requires forall i :: 0 <= i < |input| ==> InDisc(h, input[i])
    requires forall i :: 0 <= i < |tw| ==> IsTwiddle(h, tw[i])
    ensures Safe(h, 6, input, tw, fs)
  {
    forall i | 0 <= i < |input| ensures Within(h, 6, input[i]) { FullScale(h, input[i]); }
  }

  lemma SilentMeans(h: int, j: int, r: Out)
    requires Silent(h, j, r)
    ensures Unharmed(h, r)
  {}

  lemma SixthPower()
    ensures Pow4(7) == 16384
  {
    assert Pow4(3) == 64;
    assert Pow4(5) == 1024;
  }

  // ----- Full scale

  lemma {:induction false} ErrOf(k: int, fs: Factors)
    requires FoursFirst(fs) && FitsFrom(TWO_FROM, 1, k, fs) && k >= 0
    ensures K.Err(fs) <= 11 * (k - Left(k, fs)) + 6 && Left(k, fs) >= 0
  {
    match fs
    case One =>
    case Times2(rest) =>
    case Times4(rest) => ErrOf(k, rest);
  }

  lemma TwiddlesAre(h: int, tw: seq<Complex>, w: R.Comp)
    requires K.TwiddlesOf(h, tw, w)
    ensures forall i :: 0 <= i < |tw| ==> IsTwiddle(h, tw[i])
  {
    forall i: nat | i < |tw| ensures IsTwiddle(h, tw[i]) { R.TwiddleIs(h, tw[i], K.O.Power(w, i)); }
  }

  lemma TransformWithin(s: seq<Complex>, input: seq<Complex>, stride: nat, w: R.Comp, e: nat, f: nat)
    requires K.IsTransform(s, input, stride, w, e) && e <= f
    ensures K.IsTransform(s, input, stride, w, f)
  {
    forall q: nat | q < |s| ensures K.IsCoefficient(s, input, stride, w, f, q) {
      assert K.IsCoefficient(s, input, stride, w, e, q);
      R.Closer(s[q], K.CoefficientOf(input, stride, w, q, |s|), e as real, f as real);
    }
  }

  /** At full scale every power of two up to 8192 is computed within 72, six elevens and a
      six: with the factors kf_factor finds and the twiddles of a root for the length, the
      output holds the transform of values of the disc of radius SAMP_MAX. */
  lemma FullScaleComputes(h: int, n: nat, fb: seq<Stage>, inverse: bool, input: seq<Complex>, tw: seq<Complex>,
                          stride: nat, output: seq<Complex>, w: R.Comp)
    returns (fs: Factors)
    requires h >= 448 && h % 2 == 0 && 2 <= n <= 8192 && PowerOfTwo(n)
    requires Splits(n, fb, 1) && InOrder(fb) && Radices(fb)
    requires |output| == |tw| == n && Advance(n - 1, stride) < |input|
    requires forall i :: 0 <= i < |input| ==> InDisc(h, input[i])
    requires K.Rooted(h, tw, w, inverse)
    ensures OnlyTwos(fb) && fs == FactorsOf(fb) && Size(fs) == n
    ensures K.IsTransform(Whole(h, inverse, input, tw, fs, stride, output).s, input, stride, w, 72)
  {
    fs := FullScaleFactors(n, fb);
    WholeComputes(h, fs, inverse, input, tw, stride, output, w, n);
  }

  lemma WholeComputes(h: int, fs: Factors, inverse: bool, input: seq<Complex>, tw: seq<Complex>, stride: nat,
                      output: seq<Complex>, w: R.Comp, n: nat)
    requires h >= 448 && h % 2 == 0 && FitsFrom(TWO_FROM, 1, 6, fs) && FoursFirst(fs)
    requires |output| == |tw| == n == Size(fs) && Advance(n - 1, stride) < |input|
    requires forall i :: 0 <= i < |input| ==> InDisc(h, input[i])
    requires K.Rooted(h, tw, w, inverse)
    ensures K.IsTransform(Whole(h, inverse, input, tw, fs, stride, output).s, input, stride, w, 72)
  {
    TwiddlesAre(h, tw, w);
    FullScaleSafe(h, input, tw, fs);
    K.WholeIsTransform(h, 6, inverse, input, tw, fs, stride, output, w);
    ErrOf(6, fs);
    TransformWithin(Whole(h, inverse, input, tw, fs, stride, output).s, input, stride, w, K.Err(fs), 72);
  }
}
