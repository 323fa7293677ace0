/** kf_bfly2 and kf_bfly4 of codec2-1.2.0/src/kiss_fft.c: the butterfly loops over the output
    array, in place. */
module Fft {
  import opened FixedPoint
  import opened Butterfly

  type Op2 = (Complex, Complex, Complex) -> Pair

  type Op4 = (Four, Three) -> Quad

  /** The butterflies as functions. The loops below are stated for any functions that agree
      with them, so that their arithmetic plays no part. */
  function Fixed2(h: int): Op2
    requires h >= 1
  {
    (f, f2, tw) => Bfly2(h, f, f2, tw)
  }

  function Fixed4(h: int, inverse: bool): Op4
    requires h >= 1
  {
    (f, tw) => Bfly4(h, f, tw, inverse)
  }

  ghost predicate IsBfly2(op: Op2, h: int)
    requires h >= 1
  {
    forall f, f2, tw {:trigger Bfly2(h, f, f2, tw)} :: op(f, f2, tw) == Bfly2(h, f, f2, tw)
  }

  ghost predicate IsBfly4(op: Op4, h: int, inverse: bool)
    requires h >= 1
  {
    forall f, tw {:trigger Bfly4(h, f, tw, inverse)} :: op(f, tw) == Bfly4(h, f, tw, inverse)
  }

  /** The output array, the warnings printed so far, and whether any butterfly so far lost
      something to a conversion. */
  datatype Out = Out(s: seq<Complex>, printed: nat, lost: bool)

  /** Where a pointer stands after k steps of the given width. */
  function Advance(k: nat, width: nat): nat { if k == 0 then 0 else Advance(k - 1, width) + width }

  lemma {:induction false} AdvanceProduct(k: nat, w: nat)
    ensures Advance(k, w) == k * w
  {
    if k > 0 { AdvanceProduct(k - 1, w); }
  }

  /** The pointer stays inside an array of the given length. */
  predicate StepInside(k: nat, width: nat, len: nat) { Advance(k, width) < len }

  /** A read outside an array is given a value here; the methods below make none. */
  function At(xs: seq<Complex>, i: nat): Complex { if i < |xs| then xs[i] else Complex(0, 0) }

  /** The twiddle of the k-th butterfly. */
  function TwiddleAt(tw: seq<Complex>, k: nat, width: nat): Complex { At(tw, Advance(k, width)) }

  // ----- A radix-2 stage

  function PutTwo(o: Out, i: nat, j: nat, p: Pair): (r: Out)
    requires i < |o.s| && j < |o.s|
    ensures |r.s| == |o.s|
  {
    Out(o.s[i := p.f][j := p.f2], o.printed + p.warnings, o.lost || p.lost)
  }

  /** The first k butterflies of a stage over entries base.. and base + m.., one after the
      other. */
  function Stage2(op: Op2, o: Out, base: nat, m: nat, tw: seq<Complex>, k: nat): (r: Out)
    requires k <= m <= |tw| && base + 2 * m <= |o.s|
    ensures |r.s| == |o.s|
  {
    if k == 0 then o
    else
      var r := Stage2(op, o, base, m, tw, k - 1);
      var i, j := base + k - 1, base + m + k - 1;
      PutTwo(r, i, j, op(r.s[i], r.s[j], tw[k - 1]))
  }

  /** What the first k butterflies of a stage make of entry i, from the entries as the
      stage found them. */
  function StageAt(op: Op2, s: seq<Complex>, base: nat, m: nat, tw: seq<Complex>, k: nat, i: nat): Complex
    requires k <= m <= |tw| && base + 2 * m <= |s| && i < |s|
  {
    if base <= i < base + k then op(s[i], s[i + m], tw[i - base]).f
    else if base + m <= i < base + m + k then op(s[i - m], s[i], tw[i - m - base]).f2
    else s[i]
  }

  /** The butterflies of a stage touch disjoint pairs, so that each sees its two entries as
      the stage found them. */
  lemma {:induction false} StageIsParallel(op: Op2, o: Out, base: nat, m: nat, tw: seq<Complex>, k: nat)
    requires k <= m <= |tw| && base + 2 * m <= |o.s|
    ensures forall i :: 0 <= i < |o.s| ==> Stage2(op, o, base, m, tw, k).s[i] == StageAt(op, o.s, base, m, tw, k, i)
  {
    if k > 0 {
      StageIsParallel(op, o, base, m, tw, k - 1);
      var r := Stage2(op, o, base, m, tw, k - 1).s;
      assert r[base + k - 1] == o.s[base + k - 1] && r[base + m + k - 1] == o.s[base + m + k - 1];
      forall i | 0 <= i < |o.s| ensures Stage2(op, o, base, m, tw, k).s[i] == StageAt(op, o.s, base, m, tw, k, i) {
        assert r[i] == StageAt(op, o.s, base, m, tw, k - 1, i);
      }
    }
  }

  /** The loop body of kf_bfly2, on entries i and j. */
  method OneBfly2(h: int, fout: array<Complex>, i: nat, j: nat, tw: Complex, ghost op: Op2) returns (warnings: nat)
    requires h >= 1 && i < j < fout.Length && IsBfly2(op, h)
    modifies fout
    ensures var p := op(old(fout[i]), old(fout[j]), tw);
      fout[..] == old(fout[..])[i := p.f][j := p.f2] && warnings == p.warnings
  {
    assert op(fout[i], fout[j], tw) == Bfly2(h, fout[i], fout[j], tw);
    var a, b := CFixDiv(h, fout[i], 2), CFixDiv(h, fout[j], 2);
    var t := CMul(h, b, tw);
    warnings := Warnings(h, a.r - t.r, a.i - t.i);
    fout[j] := CSub(h, a, t);
    warnings := warnings + Warnings(h, a.r + t.r, a.i + t.i);
    fout[i] := CAdd(h, a, t);
  }

  /** The array and the warnings are those of o. */
  ghost predicate Holds(fout: array<Complex>, warnings: nat, o: Out)
    reads fout
  {
    fout[..] == o.s && warnings == o.printed
  }

  /** kf_bfly2: m butterflies in place, the k-th on entries base + k and base + m + k with
      every fstride-th twiddle. */
  method KfBfly2(h: int, fout: array<Complex>, base: nat, fstride: nat, tw: seq<Complex>, m: nat, w0: nat,
                 ghost op: Op2, ghost tws: seq<Complex>, ghost o: Out)
    returns (warnings: nat)
    requires h >= 1 && IsBfly2(op, h) && m == |tws| && base + 2 * m <= fout.Length && Holds(fout, w0, o)
    requires forall k: nat :: k < m ==> StepInside(k, fstride, |tw|) && tws[k] == TwiddleAt(tw, k, fstride)
    modifies fout
    ensures Holds(fout, warnings, Stage2(op, o, base, m, tws, m))
  {
    warnings := w0;
    var k, tw1 := 0, 0;
    while k < m
      invariant 0 <= k <= m && tw1 == Advance(k, fstride)
      invariant Holds(fout, warnings, Stage2(op, o, base, m, tws, k))
    {
      assert StepInside(k, fstride, |tw|);
      var w := OneBfly2(h, fout, base + k, base + m + k, tw[tw1], op);
      warnings := warnings + w;
      tw1 := tw1 + fstride;
      k := k + 1;
    }
  }

  // ----- A radix-4 stage

  function TakeFour(s: seq<Complex>, i: nat, m: nat): Four
    requires i + 3 * m < |s|
  {
    Four(s[i], s[i + m], s[i + 2 * m], s[i + 3 * m])
  }

  /** Four entries m apart replaced. */
  function PutFour(s: seq<Complex>, i: nat, m: nat, f: Four): (r: seq<Complex>)
    requires i + 3 * m < |s|
    ensures |r| == |s|
  {
    s[i := f.f0][i + m := f.f1][i + 2 * m := f.f2][i + 3 * m := f.f3]
  }

  function PutQuad(o: Out, i: nat, m: nat, q: Quad): (r: Out)
    requires i + 3 * m < |o.s|
    ensures |r.s| == |o.s|
  {
    Out(PutFour(o.s, i, m, q.f), o.printed + q.warnings, o.lost || q.lost)
  }

  function Stage4(op: Op4, o: Out, base: nat, m: nat, tw: seq<Three>, k: nat): (r: Out)
    requires k <= m <= |tw| && base + 4 * m <= |o.s|
    ensures |r.s| == |o.s|
  {
    if k == 0 then o
    else
      var r := Stage4(op, o, base, m, tw, k - 1);
      PutQuad(r, base + k - 1, m, op(TakeFour(r.s, base + k - 1, m), tw[k - 1]))
  }

  lemma TakePut(s: seq<Complex>, base: nat, m: nat, i: nat, f: Four, j: nat)
    requires base <= i < base + m && base <= j < base + m && base + 4 * m <= |s|
    ensures TakeFour(PutFour(s, i, m, f), j, m) == if i == j then f else TakeFour(s, j, m)
  {}

  lemma PutParallel(r: Out, base: nat, m: nat, k: nat, q: Quad, l: nat)
    requires k < m && l < m && base + 4 * m <= |r.s|
    ensures TakeFour(PutQuad(r, base + k, m, q).s, base + l, m) == if l == k then q.f else TakeFour(r.s, base + l, m)
  {
    TakePut(r.s, base, m, base + k, q.f, base + l);
  }

  /** After k butterflies of a stage, the four entries of the l-th. */
  predicate StageFour(op: Op4, s: seq<Complex>, r: seq<Complex>, base: nat, m: nat, tw: seq<Three>, k: nat, l: nat)
    requires k <= m <= |tw| && base + 4 * m <= |s| == |r| && l < m
  {
    var f := TakeFour(s, base + l, m);
    TakeFour(r, base + l, m) == if l < k then op(f, tw[l]).f else f
  }

  lemma StageFourStart(op: Op4, o: Out, base: nat, m: nat, tw: seq<Three>, l: nat)
    requires m <= |tw| && base + 4 * m <= |o.s| && l < m
    ensures StageFour(op, o.s, Stage4(op, o, base, m, tw, 0).s, base, m, tw, 0, l)
  {}

  lemma StageFourNext(op: Op4, s: seq<Complex>, r: Out, base: nat, m: nat, tw: seq<Three>, i: nat, k: nat, l: nat,
                      u: Out)
    requires k == i + 1 <= m <= |tw| && base + 4 * m <= |s| == |r.s| && l < m
    requires StageFour(op, s, r.s, base, m, tw, i, i) && StageFour(op, s, r.s, base, m, tw, i, l)
    requires u == PutQuad(r, base + i, m, op(TakeFour(r.s, base + i, m), tw[i]))
    ensures StageFour(op, s, u.s, base, m, tw, k, l)
  {
    PutParallel(r, base, m, i, op(TakeFour(r.s, base + i, m), tw[i]), l);
  }

  /** The butterflies of a stage touch disjoint entries, so that each sees its four as the
      stage found them. */
  lemma {:induction false} Stage4IsParallel(op: Op4, o: Out, base: nat, m: nat, tw: seq<Three>, k: nat, l: nat)
    requires k <= m <= |tw| && base + 4 * m <= |o.s| && l < m
    ensures StageFour(op, o.s, Stage4(op, o, base, m, tw, k).s, base, m, tw, k, l)
  {
    if k == 0 {
      StageFourStart(op, o, base, m, tw, l);
    } else {
      var i := k - 1;
      Stage4IsParallel(op, o, base, m, tw, i, l);
      Stage4IsParallel(op, o, base, m, tw, i, i);
      StageFourNext(op, o.s, Stage4(op, o, base, m, tw, i), base, m, tw, i, k, l, Stage4(op, o, base, m, tw, k));
    }
  }

  /** The loop body of kf_bfly4, on entries i, i + m, i + 2m and i + 3m. */
  method OneBfly4(h: int, fout: array<Complex>, i: nat, m: nat, tw: Three, inverse: bool, ghost op: Op4)
    returns (warnings: nat)
    requires h >= 1 && m >= 1 && i + 3 * m < fout.Length && IsBfly4(op, h, inverse)
    modifies fout
    ensures var q := op(TakeFour(old(fout[..]), i, m), tw);
      fout[..] == PutFour(old(fout[..]), i, m, q.f) && warnings == q.warnings
  {
    ghost var f := TakeFour(fout[..], i, m);
    assert op(f, tw) == Bfly4(h, f, tw, inverse);
    var a := CFixDiv(h, fout[i], 4);
    var t0 := CMul(h, CFixDiv(h, fout[i + m], 4), tw.tw1);
    var t1 := CMul(h, CFixDiv(h, fout[i + 2 * m], 4), tw.tw2);
    var t2 := CMul(h, CFixDiv(h, fout[i + 3 * m], 4), tw.tw3);
    var (r, printed) := Cross(h, a, t0, t1, t2, inverse);
    warnings := printed;
    fout[i] := r.f0;
    fout[i + m] := r.f1;
    fout[i + 2 * m] := r.f2;
    fout[i + 3 * m] := r.f3;
  }

  /** One turn of kf_bfly4's loop. */
  method NextBfly4(h: int, fout: array<Complex>, base: nat, m: nat, k: nat, tw: Three, inverse: bool, w0: nat,
                   ghost op: Op4, ghost tws: seq<Three>, ghost o: Out)
    returns (warnings: nat)
    requires h >= 1 && IsBfly4(op, h, inverse) && k < m == |tws| && tws[k] == tw
    requires base + 4 * m <= fout.Length == |o.s| && Holds(fout, w0, Stage4(op, o, base, m, tws, k))
    modifies fout
    ensures Holds(fout, warnings, Stage4(op, o, base, m, tws, k + 1))
  {
    var w := OneBfly4(h, fout, base + k, m, tw, inverse, op);
    warnings := w0 + w;
  }

  /** The twiddles of a butterfly: steps of one, two and three times fstride. */
  predicate ThreeInside(k: nat, fstride: nat, len: nat) {
    StepInside(k, fstride, len) && StepInside(k, 2 * fstride, len) && StepInside(k, 3 * fstride, len)
  }

  function ThreeOf(tw: seq<Complex>, k: nat, fstride: nat): Three {
    Three(TwiddleAt(tw, k, fstride), TwiddleAt(tw, k, 2 * fstride), TwiddleAt(tw, k, 3 * fstride))
  }

  ghost predicate AreThrees(tws: seq<Three>, tw: seq<Complex>, fstride: nat) {
    forall k: nat :: k < |tws| ==> ThreeInside(k, fstride, |tw|) && tws[k] == ThreeOf(tw, k, fstride)
  }

  /** The three twiddle pointers after k butterflies. */
  predicate PointAt(k: nat, fstride: nat, tw1: nat, tw2: nat, tw3: nat) {
    tw1 == Advance(k, fstride) && tw2 == Advance(k, 2 * fstride) && tw3 == Advance(k, 3 * fstride)
  }

  lemma ThreeAt(tws: seq<Three>, tw: seq<Complex>, fstride: nat, k: nat, tw1: nat, tw2: nat, tw3: nat)
    requires AreThrees(tws, tw, fstride) && k < |tws| && PointAt(k, fstride, tw1, tw2, tw3)
    ensures tw1 < |tw| && tw2 < |tw| && tw3 < |tw| && tws[k] == Three(tw[tw1], tw[tw2], tw[tw3])
    ensures PointAt(k + 1, fstride, tw1 + fstride, tw2 + fstride * 2, tw3 + fstride * 3)
  {
    assert ThreeInside(k, fstride, |tw|);
  }

  /** kf_bfly4: m butterflies in place. */
  method KfBfly4(h: int, fout: array<Complex>, base: nat, fstride: nat, tw: seq<Complex>, m: nat, inverse: bool,
                 w0: nat,
                 ghost op: Op4, ghost tws: seq<Three>, ghost o: Out)
    returns (warnings: nat)
    requires h >= 1 && IsBfly4(op, h, inverse) && m == |tws| && base + 4 * m <= fout.Length && Holds(fout, w0, o)
    requires AreThrees(tws, tw, fstride)
    modifies fout
    ensures Holds(fout, warnings, Stage4(op, o, base, m, tws, m))
  {
    warnings := w0;
    var k, tw1, tw2, tw3 := 0, 0, 0, 0;
    while k < m
      invariant 0 <= k <= m && 0 <= tw1 && 0 <= tw2 && 0 <= tw3 && PointAt(k, fstride, tw1, tw2, tw3)
      invariant Holds(fout, warnings, Stage4(op, o, base, m, tws, k))
    {
      ThreeAt(tws, tw, fstride, k, tw1, tw2, tw3);
      warnings := NextBfly4(h, fout, base, m, k, Three(tw[tw1], tw[tw2], tw[tw3]), inverse, warnings, op, tws, o);
      tw1, tw2, tw3 := tw1 + fstride, tw2 + fstride * 2, tw3 + fstride * 3;
      k := k + 1;
    }
  }
}
