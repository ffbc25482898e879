/**
 * csdr's spectral noise gate, NoiseFilter<T> (src/lib/noisefilter.cpp).
 *
 * Each call of apply() takes up to F - O new samples (F the FFT size, O the
 * overlap), transforms the block, opens a "gate" for every frequency bin
 * whose power is above a smoothed threshold, weights every bin by the number
 * of open gates in a window of 2W bins around it (W the half-window), zeroes
 * the bins with no open gate in their window, transforms back, crossfades the
 * first O samples with the tail kept from the previous block and hands out
 * F - O samples.
 *
 * Floating-point values are idealised as reals. FFTW's transforms and sqrt
 * are foreign code: they are parameters (Transforms) and nothing is assumed
 * about them.
 */
module NoiseFilters {

  // ---------------------------------------------------------------------
  // Samples
  // ---------------------------------------------------------------------

  /** complex<float>: the in-phase (re) and quadrature (im) parts. */
  datatype Complex = Complex(re: real, im: real)

  const Zero: Complex := Complex(0.0, 0.0)

  function Add(a: Complex, b: Complex): Complex {
    Complex(a.re + b.re, a.im + b.im)
  }

  function Scale(c: Complex, k: real): Complex {
    Complex(c.re * k, c.im * k)
  }

  function Div(c: Complex, d: real): Complex
    requires d != 0.0
  {
    Complex(c.re / d, c.im / d)
  }

  /** std::norm: the squared magnitude. */
  function Norm(c: Complex): (n: real)
    ensures n >= 0.0
  {
    c.re * c.re + c.im * c.im
  }

  /** The two instantiations of the template: NoiseFilter<complex<float>> and NoiseFilter<float>. */
  datatype SampleFormat = ComplexSamples | FloatSamples

  /** One T. */
  datatype Sample = IQ(iq: Complex) | Real(value: real)

  function FormatOf(s: Sample): SampleFormat {
    if s.IQ? then ComplexSamples else FloatSamples
  }

  /** The conversion of a T to complex<float> in `data[i] = input[i]`: a float gets a zero quadrature part. */
  function ToComplex(s: Sample): Complex {
    match s
    case IQ(c) => c
    case Real(x) => Complex(x, 0.0)
  }

  /**
   * complex2sample: a complex filter hands the sample out unchanged, a float
   * filter keeps the in-phase part, i(), and drops the quadrature part.
   */
  function Complex2Sample(format: SampleFormat, c: Complex): (s: Sample)
    ensures FormatOf(s) == format
    ensures ToComplex(s).re == c.re
    ensures format == ComplexSamples ==> ToComplex(s) == c
    ensures format == FloatSamples ==> ToComplex(s) == Complex(c.re, 0.0)
  {
    match format
    case ComplexSamples => IQ(c)
    case FloatSamples => Real(c.re)
  }

  /** Converting a sample in and back out of the filter's complex domain gives it back. */
  lemma SampleRoundTrip(s: Sample)
    ensures Complex2Sample(FormatOf(s), ToComplex(s)) == s
  {
  }

  // ---------------------------------------------------------------------
  // Sizes chosen by the constructor
  // ---------------------------------------------------------------------

  /** F, O, W and the latency, as the constructor stores them. */
  datatype Config = Config(fftSize: nat, ovrSize: nat, wndSize: nat, latency: nat)

  /** The ranges the constructor's clamping guarantees. */
  ghost predicate Sane(c: Config) {
    && c.fftSize >= 32
    && 1 <= c.ovrSize < c.fftSize && c.fftSize - c.ovrSize >= 31
    // 2W <= F / 2
    && 1 <= c.wndSize <= 127 && 4 * c.wndSize <= c.fftSize
    && c.latency >= 1
  }

  /**
   * The clamping of the constructor. The FFT size is at least 32; the
   * overlap is a 64th of it (at least 1); the window is cut to half the FFT
   * size and then to [2, 254] so that a gain fits an unsigned char, and W is
   * half of it; the latency is at least 1.
   */
  function Configure(fftSize: nat, wndSize: nat, latency: nat): (c: Config)
    ensures Sane(c) && 2 * c.wndSize <= c.fftSize / 2
    ensures fftSize >= 32 ==> c.fftSize == fftSize
    ensures fftSize < 32 ==> c.fftSize == 32
    ensures c.fftSize < 64 ==> c.ovrSize == 1
    ensures c.fftSize >= 64 ==> 64 * c.ovrSize <= c.fftSize < 64 * (c.ovrSize + 1)
    ensures 2 <= wndSize <= 254 && wndSize <= c.fftSize / 2 ==> 2 * c.wndSize <= wndSize <= 2 * c.wndSize + 1
    ensures wndSize < 2 ==> c.wndSize == 1
    // a window wider than half the transform or than 254 bins is clamped first
    ensures wndSize > c.fftSize / 2 || wndSize > 254 ==>
              c.wndSize == (if c.fftSize / 2 < 254 then c.fftSize / 2 else 254) / 2
    ensures latency > 0 ==> c.latency == latency
    ensures latency == 0 ==> c.latency == 1
  {
    var f := if fftSize >= 32 then fftSize else 32;
    // fftSize >> 6
    var o := if f >= 64 then f / 64 else 1;
    var w := if wndSize > f / 2 then f / 2 else wndSize;
    var w' := if w < 2 then 2 else if w > 254 then 254 else w;
    // wndSize >> 1
    Config(f, o, w' / 2, if latency > 0 then latency else 1)
  }

  // ---------------------------------------------------------------------
  // Power levels and the threshold
  // ---------------------------------------------------------------------

  /** The squared level of every bin (lines 124-129). */
  function Levels(spectrum: seq<Complex>): (l: seq<real>)
    ensures |l| == |spectrum|
  {
    seq(|spectrum|, i requires 0 <= i < |spectrum| => Norm(spectrum[i]))
  }

  ghost predicate NonNegative(l: seq<real>) {
    forall i :: 0 <= i < |l| ==> l[i] >= 0.0
  }

  /** std::max(a, b) */
  function Max(a: real, b: real): real {
    if a < b then b else a
  }

  /** maxPower after the loop: the running maximum from 0.0. */
  function Peak(l: seq<real>): real {
    if l == [] then 0.0 else Max(Peak(l[..|l| - 1]), l[|l| - 1])
  }

  /** power after the loop: the running sum from 0.0. */
  function Sum(l: seq<real>): real {
    if l == [] then 0.0 else Sum(l[..|l| - 1]) + l[|l| - 1]
  }

  /**
   * For non-negative levels the peak is the largest level and is one of them
   * (or 0 for no levels), so dropping it leaves a non-negative sum.
   */
  lemma {:induction false} PeakIsLargest(l: seq<real>)
    requires NonNegative(l)
    ensures forall i :: 0 <= i < |l| ==> l[i] <= Peak(l)
    ensures Peak(l) == 0.0 || exists i :: 0 <= i < |l| && l[i] == Peak(l)
    ensures 0.0 <= Peak(l) <= Sum(l)
  {
    if l != [] {
      var init := l[..|l| - 1];
      assert NonNegative(init);
      PeakIsLargest(init);
      if Peak(init) != 0.0 && Peak(init) >= l[|l| - 1] {
        var j :| 0 <= j < |init| && init[j] == Peak(init);
        assert l[j] == Peak(l);
      }
      forall i | 0 <= i < |l| ensures l[i] <= Peak(l) {
        if i < |l| - 1 {
          assert l[i] == init[i];
        }
      }
    }
  }

  /** Line 132: the mean power of all bins but the strongest, from the sum and the maximum of the levels. */
  function DropPeak(total: real, peak: real, bins: nat): (r: real)
    requires bins >= 2
    ensures r * (bins - 1) as real == total - peak
    ensures total >= peak ==> r >= 0.0
  {
    (total - peak) / (bins - 1) as real
  }

  /** The power estimate of a spectrum. */
  function PowerEstimate(l: seq<real>): real
    requires |l| >= 2
  {
    DropPeak(Sum(l), Peak(l), |l|)
  }

  /** The estimate is never negative. */
  lemma PowerEstimateNonNegative(spectrum: seq<Complex>)
    requires |spectrum| >= 2
    ensures PowerEstimate(Levels(spectrum)) >= 0.0
  {
    var l := Levels(spectrum);
    PeakIsLargest(l);
    var d := (|l| - 1) as real;
    var x := Sum(l) - Peak(l);
    assert x >= 0.0 && d > 0.0;
    assert x / d * d == x;
  }

  /**
   * Line 138: the running power follows a rise half way and a fall by one
   * `latency`-th of the difference.
   */
  function Smooth(avg: real, power: real, latency: nat): (a: real)
    requires latency >= 1
    ensures power > avg ==> avg < a < power
    ensures power <= avg ==> power <= a <= avg
    ensures latency == 1 ==> power <= avg ==> a == power
  {
    avg + (power - avg) / (if power > avg then 2.0 else latency as real)
  }

  /**
   * Lines 132-141: the running power moves from `before` to `after` by the
   * estimate of `spectrum`, and the gates compare against `limit`, the
   * running power times the threshold.
   */
  ghost predicate Tracked(spectrum: seq<Complex>, before: real, after: real, latency: nat, threshold: real, limit: real) {
    && |spectrum| >= 2 && latency >= 1
    && after == Smooth(before, PowerEstimate(Levels(spectrum)), latency)
    && limit == after * threshold
  }

  /** A gate per bin: 1 when the bin's level is above the effective threshold (lines 144-145). */
  function Gates(level: seq<real>, limit: real): (g: seq<nat>)
    ensures |g| == |level| && IsGate(g)
  {
    seq(|level|, i requires 0 <= i < |level| => if level[i] > limit then 1 else 0)
  }

  /** Every entry is 0 or 1. */
  ghost predicate IsGate(g: seq<nat>) {
    forall i :: 0 <= i < |g| ==> g[i] <= 1
  }

  /** The number of open gates. */
  function OpenCount(g: seq<nat>): nat {
    if g == [] then 0 else OpenCount(g[..|g| - 1]) + g[|g| - 1]
  }

  /**
   * For a fixed spectrum a higher threshold never opens a gate that a lower
   * one kept closed, and so never opens more gates.
   */
  lemma {:induction false} RaisingThresholdClosesGates(level: seq<real>, low: real, high: real)
    requires low <= high
    ensures IsGate(Gates(level, low)) && IsGate(Gates(level, high))
    ensures forall i :: 0 <= i < |level| ==> Gates(level, high)[i] <= Gates(level, low)[i]
    ensures OpenCount(Gates(level, high)) <= OpenCount(Gates(level, low))
  {
    if level != [] {
      var init := level[..|level| - 1];
      RaisingThresholdClosesGates(init, low, high);
      assert Gates(level, low)[..|level| - 1] == Gates(init, low);
      assert Gates(level, high)[..|level| - 1] == Gates(init, high);
    }
  }

  // ---------------------------------------------------------------------
  // The circular sliding window
  // ---------------------------------------------------------------------

  /**
   * Bin j of the circular spectrum, reduced modulo f. The windows of the
   * gain loop reach from bin 0 to below bin 3F, so three turns suffice.
   */
  function Wrap(j: nat, f: nat): (r: nat)
    requires 0 < f && j < 3 * f
    ensures r < f
  {
    if j < f then j else if j < 2 * f then j - f else j - 2 * f
  }

  /** Gate j, counted circularly. */
  function At(g: seq<nat>, j: nat): nat
    requires 0 < |g| && j < 3 * |g|
  {
    g[Wrap(j, |g|)]
  }

  /** Open gates among the `len` circularly consecutive bins from `start`. */
  function WindowFrom(g: seq<nat>, start: nat, len: nat): nat
    requires 0 < |g| && start + len <= 3 * |g|
    decreases len
  {
    if len == 0 then 0 else WindowFrom(g, start, len - 1) + At(g, start + len - 1)
  }

  /** gain[i]: open gates among the 2W bins i - W .. i + W - 1 (mod F). */
  function Window(g: seq<nat>, i: nat, w: nat): nat
    requires i < |g| && w <= |g|
  {
    WindowFrom(g, i + |g| - w, 2 * w)
  }

  /** The gains of all bins. */
  function Gains(g: seq<nat>, w: nat): (r: seq<nat>)
    requires 0 < |g| && w <= |g|
    ensures |r| == |g|
  {
    seq(|g|, i requires 0 <= i < |g| => Window(g, i, w))
  }

  /** A window over 0/1 gates counts at most its length. */
  lemma {:induction false} WindowBounded(g: seq<nat>, start: nat, len: nat)
    requires 0 < |g| && start + len <= 3 * |g| && IsGate(g)
    ensures WindowFrom(g, start, len) <= len
    decreases len
  {
    if len > 0 {
      WindowBounded(g, start, len - 1);
    }
  }

  /** A window with every gate open counts its length. */
  lemma {:induction false} WindowAllOpen(g: seq<nat>, start: nat, len: nat)
    requires 0 < |g| && start + len <= 3 * |g|
    requires forall j :: 0 <= j < |g| ==> g[j] == 1
    ensures WindowFrom(g, start, len) == len
    decreases len
  {
    if len > 0 {
      WindowAllOpen(g, start, len - 1);
    }
  }

  /** A window with every gate closed counts nothing. */
  lemma {:induction false} WindowAllClosed(g: seq<nat>, start: nat, len: nat)
    requires 0 < |g| && start + len <= 3 * |g|
    requires forall j :: 0 <= j < |g| ==> g[j] == 0
    ensures WindowFrom(g, start, len) == 0
    decreases len
  {
    if len > 0 {
      WindowAllClosed(g, start, len - 1);
    }
  }

  /** Growing a window by one bin at its front. */
  lemma {:induction false} WindowPrepend(g: seq<nat>, start: nat, len: nat)
    requires 0 < |g| && 1 <= start && start + len <= 3 * |g|
    ensures WindowFrom(g, start - 1, len + 1) == At(g, start - 1) + WindowFrom(g, start, len)
    decreases len
  {
    if len > 0 {
      WindowPrepend(g, start, len - 1);
    }
  }

  /** Moving a window one bin on adds the bin entering at the end and drops the one leaving at the front. */
  lemma WindowSlide(g: seq<nat>, start: nat, len: nat)
    requires 0 < |g| && start + 1 + len <= 3 * |g|
    ensures WindowFrom(g, start + 1, len) + At(g, start) == WindowFrom(g, start, len) + At(g, start + len)
  {
    WindowPrepend(g, start + 1, len);
  }

  /** Every gain fits the unsigned char it is stored in: 0 <= gain <= 2W <= 254. */
  lemma GainsBounded(g: seq<nat>, w: nat)
    requires 0 < |g| && w <= 127 && w <= |g| && IsGate(g)
    ensures forall i :: 0 <= i < |g| ==> Gains(g, w)[i] <= 2 * w <= 254
  {
    forall i | 0 <= i < |g| ensures Gains(g, w)[i] <= 2 * w {
      WindowBounded(g, i + |g| - w, 2 * w);
    }
  }

  /** With every gate open every bin gets the full gain 2W; with every gate closed, none. */
  lemma GainsAtExtremes(g: seq<nat>, w: nat)
    requires 0 < |g| && w <= |g|
    ensures (forall j :: 0 <= j < |g| ==> g[j] == 1) ==> forall i :: 0 <= i < |g| ==> Gains(g, w)[i] == 2 * w
    ensures (forall j :: 0 <= j < |g| ==> g[j] == 0) ==> forall i :: 0 <= i < |g| ==> Gains(g, w)[i] == 0
  {
    if forall j :: 0 <= j < |g| ==> g[j] == 1 {
      forall i | 0 <= i < |g| ensures Gains(g, w)[i] == 2 * w {
        WindowAllOpen(g, i + |g| - w, 2 * w);
      }
    }
    if forall j :: 0 <= j < |g| ==> g[j] == 0 {
      forall i | 0 <= i < |g| ensures Gains(g, w)[i] == 0 {
        WindowAllClosed(g, i + |g| - w, 2 * w);
      }
    }
  }

  /**
   * gain[0] is summed pairwise, gate[i] + gate[F - i - 1] for i < W
   * (lines 148-150): after i pairs that is the window of the 2i bins
   * F - i .. F + i - 1.
   */
  lemma FirstWindowPairStep(g: seq<nat>, i: nat)
    requires i < |g| - i
    ensures WindowFrom(g, |g| - (i + 1), 2 * (i + 1))
            == WindowFrom(g, |g| - i, 2 * i) + g[i] + g[|g| - i - 1]
  {
    var f := |g|;
    WindowPrepend(g, f - i, 2 * i);
    assert f - (i + 1) + 2 * (i + 1) - 1 == i + f;
    assert Wrap(i + f, f) == Wrap(i, f) == i;
  }

  // ---------------------------------------------------------------------
  // Masking and reconstruction
  // ---------------------------------------------------------------------

  /**
   * Lines 163-164: a bin with gain 0 is zeroed, any other is scaled by the
   * square root of its share of the full window.
   */
  function Masked(spectrum: seq<Complex>, gains: seq<nat>, w: nat, root: real -> real): (m: seq<Complex>)
    requires |gains| == |spectrum| && w >= 1
    ensures |m| == |spectrum|
    // a closed bin is silenced; a bin whose whole window is open keeps sqrt(1) of itself
    ensures forall i :: 0 <= i < |m| && gains[i] == 0 ==> m[i] == Zero
    ensures forall i :: 0 <= i < |m| && gains[i] == 2 * w ==> m[i] == Scale(spectrum[i], root(1.0))
  {
    assert (2 * w) as real / (w * 2) as real == 1.0;
    seq(|spectrum|, i requires 0 <= i < |spectrum| =>
      if gains[i] == 0 then Zero else Scale(spectrum[i], root(gains[i] as real / (w * 2) as real)))
  }

  /** A bin with no open gate in its window is silenced, and with every gate closed the whole block is. */
  lemma ClosedBinsSilenced(spectrum: seq<Complex>, g: seq<nat>, w: nat, root: real -> real)
    requires |g| == |spectrum| > 0 && 1 <= w <= |g|
    ensures forall i :: 0 <= i < |g| && Gains(g, w)[i] == 0 ==> Masked(spectrum, Gains(g, w), w, root)[i] == Zero
    ensures (forall j :: 0 <= j < |g| ==> g[j] == 0) ==>
              forall i :: 0 <= i < |g| ==> Masked(spectrum, Gains(g, w), w, root)[i] == Zero
  {
    GainsAtExtremes(g, w);
  }

  /** With every gate open each bin is scaled by sqrt(1). */
  lemma OpenBinsKeepFullWeight(spectrum: seq<Complex>, g: seq<nat>, w: nat, root: real -> real)
    requires |g| == |spectrum| > 0 && 1 <= w <= |g|
    requires forall j :: 0 <= j < |g| ==> g[j] == 1
    ensures forall i :: 0 <= i < |g| ==> Masked(spectrum, Gains(g, w), w, root)[i] == Scale(spectrum[i], root(1.0))
  {
    GainsAtExtremes(g, w);
  }

  /**
   * Lines 174-182: the first O samples of the inverse transform are
   * normalised by F and crossfaded with the saved overlap, weight i/O
   * rising for the new block; the rest are only normalised.
   */
  function Reconstruct(inverse: seq<Complex>, overlap: seq<Complex>): (r: seq<Complex>)
    requires 1 <= |overlap| < |inverse|
    ensures |r| == |inverse|
    // past the crossfade every sample is the inverse transform normalised by F
    ensures forall i :: |overlap| <= i < |r| ==> r[i] == Div(inverse[i], |inverse| as real)
  {
    var f := |inverse| as real;
    var o := |overlap|;
    seq(|inverse|, i requires 0 <= i < |inverse| =>
      if i < o then
        var x := i as real / o as real;
        Add(Scale(Div(inverse[i], f), x), Scale(overlap[i], 1.0 - x))
      else Div(inverse[i], f))
  }

  /** The first sample of every block is the first saved overlap sample, whatever the new block holds. */
  lemma BlockStartsWithOverlap(inverse: seq<Complex>, overlap: seq<Complex>)
    requires 1 <= |overlap| < |inverse|
    ensures Reconstruct(inverse, overlap)[0] == overlap[0]
  {
  }

  /** After an overlap of silence the block fades in: sample i < O carries the weight i/O. */
  lemma SilentOverlapFadesIn(inverse: seq<Complex>, overlap: seq<Complex>)
    requires 1 <= |overlap| < |inverse|
    requires forall i :: 0 <= i < |overlap| ==> overlap[i] == Zero
    ensures forall i :: 0 <= i < |overlap| ==>
              Reconstruct(inverse, overlap)[i] == Scale(Div(inverse[i], |inverse| as real), i as real / |overlap| as real)
  {
  }

  /**
   * A silent spectrum gates every bin shut against any non-negative
   * threshold, so with a silent overlap, and a backward transform that maps
   * silence to silence, the whole reconstructed block is silent.
   */
  lemma SilenceStaysSilent(tr: Transforms, spectrum: seq<Complex>, limit: real, w: nat, overlap: seq<Complex>)
    requires 1 <= w && 4 * w <= |spectrum| && 1 <= |overlap| < |spectrum|
    requires forall i :: 0 <= i < |spectrum| ==> spectrum[i] == Zero
    requires forall i :: 0 <= i < |overlap| ==> overlap[i] == Zero
    requires limit >= 0.0
    requires forall k :: 0 <= k < |spectrum| ==> tr.backward(Silence(|spectrum|), k) == Zero
    ensures forall i :: 0 <= i < |spectrum| ==> Filtered(tr, spectrum, limit, w, overlap)[i] == Zero
  {
    var g := Gates(Levels(spectrum), limit);
    assert forall j :: 0 <= j < |g| ==> g[j] == 0;
    ClosedBinsSilenced(spectrum, g, w, tr.root);
    var masked := Masked(spectrum, Gains(g, w), w, tr.root);
    assert masked == Silence(|spectrum|);
    var inverse := Backward(tr, masked);
    assert forall k :: 0 <= k < |inverse| ==> inverse[k] == Zero;
  }

  /** A block of n silent samples. */
  function Silence(n: nat): (z: seq<Complex>)
    ensures |z| == n && forall i :: 0 <= i < n ==> z[i] == Zero
  {
    seq(n, _ => Zero)
  }

  /** The library calls apply makes: bin k of FFTW's forward and backward transforms of a block, and sqrt. */
  datatype Transforms = Transforms(forward: (seq<Complex>, nat) -> Complex,
                                   backward: (seq<Complex>, nat) -> Complex,
                                   root: real -> real)

  function Forward(tr: Transforms, x: seq<Complex>): (s: seq<Complex>)
    ensures |s| == |x|
  {
    seq(|x|, k requires 0 <= k < |x| => tr.forward(x, k))
  }

  function Backward(tr: Transforms, x: seq<Complex>): (s: seq<Complex>)
    ensures |s| == |x|
  {
    seq(|x|, k requires 0 <= k < |x| => tr.backward(x, k))
  }

  // ---------------------------------------------------------------------
  // The loops of apply
  // ---------------------------------------------------------------------

  /** Lines 122-129: the levels, their maximum and their sum. */
  method MeasureLevels(spectrum: seq<Complex>) returns (level: array<real>, maxPower: real, power: real)
    ensures fresh(level)
    ensures level[..] == Levels(spectrum)
    ensures maxPower == Peak(level[..]) && power == Sum(level[..])
  {
    level := new real[|spectrum|];
    maxPower, power := 0.0, 0.0;
    for i := 0 to |spectrum|
      invariant forall j :: 0 <= j < i ==> level[j] == Norm(spectrum[j])
      invariant maxPower == Peak(level[..i]) && power == Sum(level[..i])
    {
      var v := Norm(spectrum[i]);
      assert level[..i + 1][..i] == level[..i];
      maxPower := Max(maxPower, v);
      level[i] := v;
      power := power + v;
      assert level[..i + 1] == level[..i] + [v];
    }
    assert level[..] == level[..|spectrum|];
  }

  /** Lines 144-145. */
  method ComputeGates(level: array<real>, limit: real) returns (gate: array<nat>)
    ensures fresh(gate)
    ensures gate[..] == Gates(level[..], limit)
  {
    gate := new nat[level.Length];
    for i := 0 to level.Length
      invariant forall j :: 0 <= j < i ==> gate[j] == if level[j] > limit then 1 else 0
    {
      gate[i] := if level[i] > limit then 1 else 0;
    }
  }

  /**
   * Lines 148-160: gain[0] is summed over its window, every further gain is
   * the previous one plus the gate entering the window at `next` minus the
   * gate leaving it at `prev`, both cursors wrapping at F. The sums are
   * stored in unsigned chars, hence `% 256`; they never reach 256.
   */
  method SlidingGains(gate: array<nat>, w: nat) returns (gain: array<nat>)
    requires 1 <= w <= 127 && 4 * w <= gate.Length
    requires IsGate(gate[..])
    ensures fresh(gain)
    ensures gain[..] == Gains(gate[..], w)
  {
    var f := gate.Length;
    ghost var g := gate[..];
    gain := new nat[f];
    gain[0] := FirstGain(gate, w);
    var prev: int := f - w;
    var next: int := w;
    CursorsStayApart(0, f, w);
    for i := 1 to f
      invariant prev == Wrap(i - 1 + f - w, f) && next == Wrap(prev + 2 * w, f)
      invariant forall k :: 0 <= k < i ==> gain[k] == Window(g, k, w)
    {
      SlideStep(g, i, w, gain[i - 1], prev, next);
      gain[i] := (gain[i - 1] as int + gate[next] - gate[prev]) % 256;
      prev := Bump(prev, f);
      next := Bump(next, f);
    }
  }

  /** A cursor stepped forward one bin, wrapping to bin 0 at the end of the spectrum. */
  function Bump(c: int, f: nat): (r: int)
    ensures 0 <= c < f ==> 0 <= r < f && r == (c + 1) % f
  {
    if c + 1 >= f then 0 else c + 1
  }

  /**
   * The cursors of the sliding loop: before computing gain[i], `prev` is
   * bin i - 1 - W and `next` bin i - 1 + W, both reduced modulo F, so they
   * are always 2W bins apart modulo F.
   */
  lemma CursorsStayApart(i: nat, f: nat, w: nat)
    requires 1 <= w && 4 * w <= f && i < f
    ensures Wrap(i + f + w, f) == Wrap(Wrap(i + f - w, f) + 2 * w, f)
  {
  }

  /**
   * One pass of the sliding loop: the cursors, kept 2W apart, give gain[i],
   * and stepped forward they are still 2W apart.
   */
  lemma SlideStep(g: seq<nat>, i: nat, w: nat, before: nat, prev: nat, next: nat)
    requires 1 <= i < |g| && IsGate(g) && 1 <= w <= 127 && 4 * w <= |g|
    requires prev == Wrap(i - 1 + |g| - w, |g|) && next == Wrap(prev + 2 * w, |g|)
    requires before == Window(g, i - 1, w)
    ensures (before as int + g[next] - g[prev]) % 256 == Window(g, i, w)
    ensures Bump(prev, |g|) == Wrap(i + |g| - w, |g|)
    ensures Bump(next, |g|) == Wrap(Bump(prev, |g|) + 2 * w, |g|)
  {
    CursorsStayApart(i - 1, |g|, w);
    GainStep(g, i, w, before, prev, next);
    CursorStep(|g|, i, w);
    CursorsStayApart(i, |g|, w);
  }

  /**
   * One step of line 157: with the cursors on bins i - 1 - W and
   * i - 1 + W (mod F), the unsigned char sum is gain[i].
   */
  lemma GainStep(g: seq<nat>, i: nat, w: nat, before: nat, prev: nat, next: nat)
    requires 1 <= i < |g| && IsGate(g) && 1 <= w <= 127 && 4 * w <= |g|
    requires prev == Wrap(i - 1 + |g| - w, |g|) && next == Wrap(i - 1 + |g| + w, |g|)
    requires before == Window(g, i - 1, w)
    ensures (before as int + g[next] - g[prev]) % 256 == Window(g, i, w)
  {
    var s := i - 1 + |g| - w;
    assert s + 1 == i + |g| - w && s + 2 * w == i - 1 + |g| + w;
    WindowSlide(g, s, 2 * w);
    WindowBounded(g, s + 1, 2 * w);
    var after := WindowFrom(g, s + 1, 2 * w);
    assert after == before as int + g[next] - g[prev];
    assert 0 <= after < 256;
  }

  /** Lines 158-159: the cursors move on to bins i - W and i + W (mod F). */
  lemma CursorStep(f: nat, i: nat, w: nat)
    requires 1 <= i < f && 1 <= w && 4 * w <= f
    ensures Bump(Wrap(i - 1 + f - w, f), f) == Wrap(i + f - w, f)
    ensures Bump(Wrap(i - 1 + f + w, f), f) == Wrap(i + f + w, f)
  {
  }

  /** One pair added to gain[0] in an unsigned char: the sum of at most 254 gates does not wrap. */
  lemma FirstWindowByteStep(g: seq<nat>, i: nat, sum: nat)
    requires i < |g| - i && 2 * (i + 1) < 256 && IsGate(g)
    requires sum == WindowFrom(g, |g| - i, 2 * i)
    ensures (sum + g[i] + g[|g| - i - 1]) % 256 == WindowFrom(g, |g| - (i + 1), 2 * (i + 1))
  {
    FirstWindowPairStep(g, i);
    WindowBounded(g, |g| - (i + 1), 2 * (i + 1));
  }

  /** Lines 148-150: gain[0], summed pairwise over its window in an unsigned char. */
  method FirstGain(gate: array<nat>, w: nat) returns (sum: nat)
    requires 1 <= w <= 127 && 4 * w <= gate.Length
    requires IsGate(gate[..])
    ensures sum == Window(gate[..], 0, w)
  {
    var f := gate.Length;
    ghost var g := gate[..];
    assert |g| == f;
    sum := 0;
    for i := 0 to w
      invariant sum == WindowFrom(g, f - i, 2 * i)
    {
      FirstWindowByteStep(g, i, sum);
      sum := (sum + gate[i] + gate[f - i - 1]) % 256;
    }
  }

  /** Lines 163-164. */
  method ApplyGains(spectrum: seq<Complex>, gain: array<nat>, w: nat, root: real -> real)
    returns (out: array<Complex>)
    requires gain.Length == |spectrum| && w >= 1
    ensures fresh(out)
    ensures out[..] == Masked(spectrum, gain[..], w, root)
  {
    out := new Complex[|spectrum|];
    for i := 0 to |spectrum|
      invariant forall j :: 0 <= j < i ==> out[j] == Masked(spectrum, gain[..], w, root)[j]
    {
      out[i] := if gain[i] != 0 then Scale(spectrum[i], root(gain[i] as real / (w * 2) as real)) else Zero;
    }
  }

  /** Lines 174-182, in place on the inverse transform's output. */
  method Blend(result: array<Complex>, overlap: array<Complex>)
    requires 1 <= overlap.Length < result.Length && result != overlap
    modifies result
    ensures result[..] == Reconstruct(old(result[..]), overlap[..])
  {
    ghost var inverse := result[..];
    var f := result.Length;
    var o := overlap.Length;
    for i := 0 to o
      invariant forall j :: i <= j < f ==> result[j] == inverse[j]
      invariant forall j :: 0 <= j < i ==> result[j] == Reconstruct(inverse, overlap[..])[j]
    {
      var x := i as real / o as real;
      result[i] := Add(Scale(Div(result[i], f as real), x), Scale(overlap[i], 1.0 - x));
    }
    for i := o to f
      invariant forall j :: i <= j < f ==> result[j] == inverse[j]
      invariant forall j :: 0 <= j < i ==> result[j] == Reconstruct(inverse, overlap[..])[j]
    {
      result[i] := Div(result[i], f as real);
    }
  }

  // ---------------------------------------------------------------------
  // NoiseFilter
  // ---------------------------------------------------------------------

  /** Lines 74-78: zero-fill an FFTW buffer. */
  method ZeroFill(a: array<Complex>)
    modifies a
    ensures forall i :: 0 <= i < a.Length ==> a[i] == Zero
  {
    for i := 0 to a.Length
      invariant forall j :: 0 <= j < i ==> a[j] == Zero
    {
      a[i] := Zero;
    }
  }

  class NoiseFilter {
    /** Which T the filter was instantiated with. */
    const format: SampleFormat
    const fftSize: nat
    const ovrSize: nat
    /** Half the window, W. */
    const wndSize: nat
    const latency: nat
    /** Threshold on the power ratio; setThreshold sets it to a power of ten, so it is positive. */
    var threshold: real
    /** The smoothed power of the blocks so far. */
    var avgPower: real
    /** FFTW's forward input: the new block, then the padding. */
    const forwardInput: array<Complex>
    /** The tail of the previous block's reconstruction. */
    const overlapBuf: array<Complex>

    ghost predicate Valid()
      reads this
    {
      && Sane(Config(fftSize, ovrSize, wndSize, latency))
      && forwardInput.Length == fftSize
      && overlapBuf.Length == ovrSize
      && forwardInput != overlapBuf
      && threshold >= 0.0 && avgPower >= 0.0
    }

    /**
     * The constructor as written: the sizes are clamped, forwardInput is
     * zero-filled, and overlapBuf is allocated but never initialised, so its
     * contents are unknown.
     */
    constructor (sampleFormat: SampleFormat, fftSize: nat, wndSize: nat, latency: nat)
      ensures Valid()
      ensures format == sampleFormat
      ensures Config(this.fftSize, ovrSize, this.wndSize, this.latency) == Configure(fftSize, wndSize, latency)
      ensures threshold == 1.0 && avgPower == 0.0
      ensures fresh(forwardInput) && fresh(overlapBuf)
      ensures forall i :: 0 <= i < forwardInput.Length ==> forwardInput[i] == Zero
    {
      var c := Configure(fftSize, wndSize, latency);
      format := sampleFormat;
      this.fftSize := c.fftSize;
      ovrSize := c.ovrSize;
      this.wndSize := c.wndSize;
      this.latency := c.latency;
      threshold := 1.0;
      avgPower := 0.0;
      overlapBuf := new Complex[c.ovrSize];
      forwardInput := new Complex[c.fftSize];
      new;
      ZeroFill(forwardInput);
    }

    /** The constructor with the overlap buffer cleared as well, so the first block fades in from silence. */
    constructor Cleared(sampleFormat: SampleFormat, fftSize: nat, wndSize: nat, latency: nat)
      ensures Valid()
      ensures format == sampleFormat
      ensures Config(this.fftSize, ovrSize, this.wndSize, this.latency) == Configure(fftSize, wndSize, latency)
      ensures threshold == 1.0 && avgPower == 0.0
      ensures fresh(forwardInput) && fresh(overlapBuf)
      ensures forall i :: 0 <= i < forwardInput.Length ==> forwardInput[i] == Zero
      ensures forall i :: 0 <= i < overlapBuf.Length ==> overlapBuf[i] == Zero
    {
      var c := Configure(fftSize, wndSize, latency);
      format := sampleFormat;
      this.fftSize := c.fftSize;
      ovrSize := c.ovrSize;
      this.wndSize := c.wndSize;
      this.latency := c.latency;
      threshold := 1.0;
      avgPower := 0.0;
      overlapBuf := new Complex[c.ovrSize];
      forwardInput := new Complex[c.fftSize];
      new;
      ZeroFill(forwardInput);
      ZeroFill(overlapBuf);
    }

    /**
     * setThreshold: the threshold in power decibels becomes the ratio
     * 10^(dB/20), which is computed by pow and passed in as `ratio`.
     */
    method SetThreshold(ratio: real)
      requires Valid() && ratio > 0.0
      modifies this
      ensures Valid() && threshold == ratio && avgPower == old(avgPower)
    {
      threshold := ratio;
    }

    /** F - O: the samples one block takes and gives. */
    function InputSize(): (n: nat)
      requires Valid()
      reads this
      ensures 31 <= n < fftSize && n + ovrSize == fftSize
    {
      fftSize - ovrSize
    }

    /** Lines 107-109: copy min(size, F - O) samples to the front of forwardInput. */
    method CopyInput(input: seq<Sample>)
      requires Valid()
      requires forall i :: 0 <= i < |input| ==> FormatOf(input[i]) == format
      modifies forwardInput
      ensures forall i :: 0 <= i < fftSize && i < |input| && i < InputSize() ==> forwardInput[i] == ToComplex(input[i])
      // every copied sample can be given back unchanged by complex2sample
      ensures forall i :: 0 <= i < fftSize && i < |input| && i < InputSize() ==>
                Complex2Sample(format, forwardInput[i]) == input[i]
      ensures forall i :: 0 <= i < fftSize && (|input| <= i || InputSize() <= i) ==> forwardInput[i] == old(forwardInput[i])
    {
      var inputSize := fftSize - ovrSize;
      var dataSize := if inputSize < |input| then inputSize else |input|;
      for i := 0 to dataSize
        invariant forall j :: 0 <= j < i ==> forwardInput[j] == ToComplex(input[j])
        invariant forall j :: i <= j < fftSize ==> forwardInput[j] == old(forwardInput[j])
      {
        forwardInput[i] := ToComplex(input[i]);
      }
    }

    /**
     * Lines 122-141: measure the spectrum, update the running power and
     * return the levels and the effective threshold.
     */
    method TrackPower(spectrum: seq<Complex>) returns (level: array<real>, limit: real)
      requires Valid() && |spectrum| == fftSize
      modifies this
      ensures Valid() && threshold == old(threshold)
      ensures fresh(level) && level[..] == Levels(spectrum)
      ensures Tracked(spectrum, old(avgPower), avgPower, latency, threshold, limit)
      ensures limit >= 0.0
    {
      var maxPower, power;
      level, maxPower, power := MeasureLevels(spectrum);
      power := DropPeak(power, maxPower, fftSize);
      PowerEstimateNonNegative(spectrum);
      avgPower := Smooth(avgPower, power, latency);
      limit := avgPower * threshold;
    }

    /** Line 185: keep the last O reconstructed samples for the next block. */
    method SaveOverlap(result: array<Complex>)
      requires Valid() && result.Length == fftSize
      modifies overlapBuf
      ensures overlapBuf[..] == old(result[InputSize()..])
    {
      var inputSize := fftSize - ovrSize;
      forall i | 0 <= i < ovrSize {
        overlapBuf[i] := result[inputSize + i];
      }
    }

    /**
     * apply(input, output, size) with size == |input|. Returns the output
     * block and its length; the ghost results name the spectrum, the
     * effective threshold and the reconstructed block.
     */
    method Apply(input: seq<Sample>, tr: Transforms)
      returns (output: seq<Sample>, produced: nat,
               ghost spectrum: seq<Complex>, ghost limit: real, ghost result: seq<Complex>)
      requires Valid()
      requires forall i :: 0 <= i < |input| ==> FormatOf(input[i]) == format
      modifies this, forwardInput, overlapBuf
      ensures Valid() && threshold == old(threshold)
      // sizes: min(size, F - O) samples are taken and F - O given
      ensures produced == InputSize() && |output| == produced
      ensures forall i :: 0 <= i < produced && i < |input| ==> forwardInput[i] == ToComplex(input[i])
      ensures forall i :: 0 <= i < fftSize && (|input| <= i || produced <= i) ==> forwardInput[i] == old(forwardInput[i])
      // analysis and synthesis
      ensures spectrum == Forward(tr, forwardInput[..])
      ensures Tracked(spectrum, old(avgPower), avgPower, latency, threshold, limit) && limit >= 0.0
      ensures result == Filtered(tr, spectrum, limit, wndSize, old(overlapBuf[..]))
      // the overlap and the output block
      ensures overlapBuf[..] == result[produced..]
      ensures forall i :: 0 <= i < produced ==> output[i] == Complex2Sample(format, result[i])
      ensures output[0] == Complex2Sample(format, old(overlapBuf[0]))
    {
      ghost var overlap := overlapBuf[..];
      CopyInput(input);
      var transformed := Forward(tr, forwardInput[..]);
      spectrum := transformed;

      var level, effective := TrackPower(transformed);
      limit := effective;
      var gate := ComputeGates(level, effective);
      var gain := SlidingGains(gate, wndSize);

      var resultArr := Synthesise(transformed, gain, wndSize, tr, overlapBuf);
      result := resultArr[..];
      assert overlapBuf[..] == overlap;
      assert gain[..] == Gains(Gates(Levels(spectrum), effective), wndSize);
      assert result == Filtered(tr, spectrum, effective, wndSize, overlap);
      BlockStartsWithOverlap(Backward(tr, Masked(spectrum, gain[..], wndSize, tr.root)), overlap);
      SaveOverlap(resultArr);
      output := ToSamples(format, resultArr, fftSize - ovrSize);
      produced := fftSize - ovrSize;
    }
  }

  /**
   * The block apply reconstructs from a spectrum: gates against the
   * effective threshold, sliding-window gains, masking, the backward
   * transform and the crossfade with the saved overlap.
   */
  ghost function Filtered(tr: Transforms, spectrum: seq<Complex>, limit: real, w: nat, overlap: seq<Complex>)
    : (r: seq<Complex>)
    requires 1 <= w && 4 * w <= |spectrum| && 1 <= |overlap| < |spectrum|
    ensures |r| == |spectrum|
  {
    var gains := Gains(Gates(Levels(spectrum), limit), w);
    Reconstruct(Backward(tr, Masked(spectrum, gains, w, tr.root)), overlap)
  }

  /** Lines 163-182: mask the spectrum, transform back, normalise and crossfade. */
  method Synthesise(spectrum: seq<Complex>, gain: array<nat>, w: nat, tr: Transforms, overlap: array<Complex>)
    returns (result: array<Complex>)
    requires gain.Length == |spectrum| && w >= 1 && 1 <= overlap.Length < |spectrum|
    ensures fresh(result)
    ensures result[..] == Reconstruct(Backward(tr, Masked(spectrum, gain[..], w, tr.root)), overlap[..])
  {
    var out := ApplyGains(spectrum, gain, w, tr.root);
    var inverse := Backward(tr, out[..]);
    result := new Complex[|inverse|](i requires 0 <= i < |inverse| => inverse[i]);
    assert result[..] == inverse;
    Blend(result, overlap);
  }

  /** Lines 188-189: the output block, one complex2sample per reconstructed sample. */
  method ToSamples(format: SampleFormat, result: array<Complex>, n: nat) returns (output: seq<Sample>)
    requires n <= result.Length
    ensures |output| == n
    ensures forall i :: 0 <= i < n ==> output[i] == Complex2Sample(format, result[i])
  {
    output := [];
    for i := 0 to n
      invariant |output| == i
      invariant forall j :: 0 <= j < i ==> output[j] == Complex2Sample(format, result[j])
    {
      output := output + [Complex2Sample(format, result[i])];
    }
  }
}
