/** resample_for_plot (src/util.cpp): each plotted pair is the maximum and minimum, together
    with zero, of one window of samples. */
module PlotEnvelope {

  const PLOT_FS := 400

  function Decimation(fs: nat): nat { fs / PLOT_FS }

  /** How many values are plotted: one per decimated sample, rounded up to pairs. */
  function PlotCount(length: nat, fs: nat): nat
    requires fs >= PLOT_FS
  {
    var n := length / Decimation(fs);
    if n % 2 == 1 then n + 1 else n
  }

  /** The p-th window: two decimation steps of samples, the last one cut at the end. */
  function WindowStart(fs: nat, p: nat): nat { Decimation(fs) * (2 * p) }

  function WindowEnd(length: nat, fs: nat, p: nat): nat {
    var en := Decimation(fs) * (2 * p + 2);
    if en < length then en else length
  }

  /** hi and lo are the extremes of zero and the samples of buf[st..en]. */
  ghost predicate IsEnvelope(buf: seq<int>, st: int, en: int, hi: int, lo: int)
    requires 0 <= st && en <= |buf|
  {
    && lo <= 0 <= hi
    && (forall i :: st <= i < en ==> lo <= buf[i] <= hi)
    && (hi == 0 || exists i :: st <= i < en && buf[i] == hi)
    && (lo == 0 || exists i :: st <= i < en && buf[i] == lo)
  }

  /** The inner loop. */
  method Extremes(buf: seq<int>, st: nat, en: nat) returns (max: int, min: int)
    requires st <= |buf|
    ensures IsEnvelope(buf, st, if st <= en then (if en < |buf| then en else |buf|) else st, max, min)
  {
    max, min := 0, 0;
    var i := st;
    while i < en && i < |buf|
      invariant st <= i <= |buf| && (i > st ==> i <= en)
      invariant IsEnvelope(buf, st, i, max, min)
    {
      if max < buf[i] {
        max := buf[i];
      }
      if min > buf[i] {
        min := buf[i];
      }
      i := i + 1;
    }
  }

  method ResampleForPlot(buf: seq<int>, dec: array<int>, fs: nat) returns (nSamples: nat)
    requires fs >= PLOT_FS && PlotCount(|buf|, fs) <= dec.Length
    modifies dec
    ensures nSamples == PlotCount(|buf|, fs)
    ensures forall p :: 0 <= p < nSamples / 2 ==> Plotted(buf, dec[..], fs, p)
    ensures forall i :: nSamples <= i < dec.Length ==> dec[i] == old(dec[i])
  {
    var decimation := fs / PLOT_FS;
    nSamples := |buf| / decimation;
    if nSamples % 2 != 0 {
      nSamples := nSamples + 1;
    }
    var sample := 0;
    ghost var pair := 0;
    while sample < nSamples
      invariant 0 <= sample == 2 * pair <= nSamples
      invariant forall p :: 0 <= p < pair ==> Plotted(buf, dec[..], fs, p)
      invariant forall i :: nSamples <= i < dec.Length ==> dec[i] == old(dec[i])
    {
      WindowNotEmpty(|buf|, fs, pair);
      var st, en := decimation * sample, decimation * (sample + 2);
      var max, min := Extremes(buf, st, en);
      ghost var before := dec[..];
      dec[sample] := max;
      dec[sample + 1] := min;
      PlottedKept(buf, before, dec[..], fs, pair);
      sample := sample + 2;
      pair := pair + 1;
    }
  }

  /** The p-th plotted pair is the envelope of the p-th window. */
  ghost predicate Plotted(buf: seq<int>, dec: seq<int>, fs: nat, p: nat) {
    && WindowStart(fs, p) <= WindowEnd(|buf|, fs, p) && 2 * p + 1 < |dec|
    && IsEnvelope(buf, WindowStart(fs, p), WindowEnd(|buf|, fs, p), dec[2 * p], dec[2 * p + 1])
  }

  lemma PlottedKept(buf: seq<int>, before: seq<int>, after: seq<int>, fs: nat, pair: nat)
    requires |before| == |after| && 2 * pair + 1 < |before| && before[..2 * pair] == after[..2 * pair]
    requires forall p :: 0 <= p < pair ==> Plotted(buf, before, fs, p)
    ensures forall p :: 0 <= p < pair ==> Plotted(buf, after, fs, p)
  {
    forall p | 0 <= p < pair ensures Plotted(buf, after, fs, p) {
      assert Plotted(buf, before, fs, p);
      assert before[..2 * pair][2 * p] == before[2 * p] && before[..2 * pair][2 * p + 1] == before[2 * p + 1];
      assert after[..2 * pair][2 * p] == after[2 * p] && after[..2 * pair][2 * p + 1] == after[2 * p + 1];
    }
  }

  lemma MultiplyDivide(length: nat, d: nat)
    requires d >= 1
    ensures d * (length / d) <= length < d * (length / d) + d
  {}

  lemma Widths(d: nat, a: nat, b: nat)
    requires a <= b
    ensures d * a <= d * b && d * (a + 1) == d * a + d && d * (a + 2) == d * a + 2 * d
  {}

  /** Every plotted window holds at least one sample. */
  lemma WindowNotEmpty(length: nat, fs: nat, p: nat)
    requires fs >= PLOT_FS && 2 * p < PlotCount(length, fs)
    ensures WindowStart(fs, p) < WindowEnd(length, fs, p) <= length
  {
    var d := Decimation(fs);
    MultiplyDivide(length, d);
    Widths(d, 2 * p + 1, length / d);
    Widths(d, 2 * p, 2 * p);
  }

  /** The windows follow one another without gap or overlap from the first sample, and leave
      fewer than one decimation step of samples unplotted at the end. */
  lemma WindowsPartition(length: nat, fs: nat)
    requires fs >= PLOT_FS
    ensures WindowStart(fs, 0) == 0 && PlotCount(length, fs) % 2 == 0
    ensures forall p: nat :: 2 * (p + 1) < PlotCount(length, fs) ==> WindowEnd(length, fs, p) == WindowStart(fs, p + 1)
    ensures PlotCount(length, fs) == 0 ==> length < Decimation(fs)
    ensures PlotCount(length, fs) > 0 ==>
      length - Decimation(fs) < WindowEnd(length, fs, PlotCount(length, fs) / 2 - 1) <= length
  {
    var d, n := Decimation(fs), PlotCount(length, fs);
    forall p: nat | 2 * (p + 1) < n ensures WindowEnd(length, fs, p) == WindowStart(fs, p + 1) {
      WindowNotEmpty(length, fs, p + 1);
      assert 2 * p + 2 == 2 * (p + 1);
    }
    MultiplyDivide(length, d);
    if n > 0 {
      assert 2 * (n / 2 - 1) + 2 == n;
      Widths(d, length / d, n);
    }
  }

  lemma ProductOrder(d: int, a: int, b: int)
    requires d >= 1 && d * a < d * b + d
    ensures a <= b
  {
    if a > b { ProductGap(d, b + 1, a); }
  }

  lemma ProductGap(d: int, a: int, b: int)
    requires d >= 1 && a <= b
    ensures d * a <= d * b && d * a == d * (a - 1) + d
  {}

  /** A second of samples gives 400 values when the rate is a multiple of 400, and from 400
      to 800 at any other rate from there; each pair of them covers 2 * (fs / 400) samples. */
  lemma ValuesPerSecond(fs: nat, d: nat)
    requires fs >= 400 && d == fs / 400
    ensures 400 <= PlotCount(fs, fs) <= 800
    ensures fs == 400 * d ==> PlotCount(fs, fs) == 400
    ensures forall p: nat :: WindowStart(fs, p) == d * (2 * p)
  {
    var q := fs / d;
    MultiplyDivide(fs, d);
    ProductOrder(d, 400, q);
    ProductOrder(d, q, 799);
    if fs == 400 * d { ProductOrder(d, q, 400); }
  }
}
