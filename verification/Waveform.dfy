/**
 The binning and scaling at the end of waveform generation, with amplitudes as reals.
 */
module Waveform {

  const NUM_SAMPLES := 64
  const FLOOR := 0.001

  type Frame = (real, real)

  function Abs(x: real): real {
    if x < 0.0 then -x else x
  }

  /** Both channels of a frame as one amplitude. */
  function Amplitude(f: Frame): (a: real)
    ensures a >= 0.0
  {
    Abs((f.0 + f.1) / 2.0)
  }

  function Amplitudes(frames: seq<Frame>): (samples: seq<real>)
    ensures |samples| == |frames| && forall i :: 0 <= i < |frames| ==> samples[i] == Amplitude(frames[i])
  {
    if frames == [] then [] else Amplitudes(frames[..|frames| - 1]) + [Amplitude(frames[|frames| - 1])]
  }

  function Max(a: real, b: real): real {
    if b > a then b else a
  }

  /** The largest of some values, but at least the base. */
  function Top(xs: seq<real>, base: real): real {
    if xs == [] then base else Max(Top(xs[..|xs| - 1], base), xs[|xs| - 1])
  }

  function BlockSize(n: nat): (size: nat)
    ensures size >= 1
  {
    if n / NUM_SAMPLES == 0 then 1 else n / NUM_SAMPLES
  }

  /** Where block i ends: with fewer samples than blocks the last blocks are empty. */
  function BlockEnd(n: nat, i: nat): (end: nat)
    ensures end <= n
  {
    var end := i * BlockSize(n) + BlockSize(n);
    if end > n then n else end
  }

  function Block(samples: seq<real>, i: nat): seq<real> {
    var start, end := i * BlockSize(|samples|), BlockEnd(|samples|, i);
    if start <= end then samples[start..end] else []
  }

  function BlockPeak(samples: seq<real>, i: nat): real {
    Top(Block(samples, i), 0.0)
  }

  function Peaks(samples: seq<real>, k: nat): (peaks: seq<real>)
    ensures |peaks| == k && forall i :: 0 <= i < k ==> peaks[i] == BlockPeak(samples, i)
  {
    if k == 0 then [] else Peaks(samples, k - 1) + [BlockPeak(samples, k - 1)]
  }

  /** The loudest of all blocks, but at least the floor. */
  function Scale(samples: seq<real>): real {
    Top(Peaks(samples, NUM_SAMPLES), FLOOR)
  }

  /** Half away from zero; the arguments here are not negative. */
  function Round(x: real): int
    requires x >= 0.0
  {
    (x + 0.5).Floor
  }

  function Clamp(x: real): (c: real)
    ensures 0.0 <= c <= 100.0
  {
    var y := if x > 100.0 then 100.0 else x;
    if y < 0.0 then 0.0 else y
  }

  function Percent(a: real, m: real): int
    requires m != 0.0
  {
    Round(Clamp(a / m * 100.0))
  }

  lemma {:induction false} TopIs(xs: seq<real>, base: real)
    ensures Top(xs, base) >= base && forall i :: 0 <= i < |xs| ==> xs[i] <= Top(xs, base)
    ensures Top(xs, base) == base || Top(xs, base) in xs
  {
    if xs != [] {
      TopIs(xs[..|xs| - 1], base);
    }
  }

  function Value(samples: seq<real>, i: nat): int {
    TopIs(Peaks(samples, NUM_SAMPLES), FLOOR);
    Percent(BlockPeak(samples, i), Scale(samples))
  }

  // ------------------------------------------------------------------ the loops

  method Samples(frames: seq<Frame>) returns (samples: seq<real>)
    ensures samples == Amplitudes(frames)
  {
    samples := [];
    for i := 0 to |frames|
      invariant samples == Amplitudes(frames[..i])
    {
      assert frames[..i + 1][..i] == frames[..i];
      samples := samples + [Abs((frames[i].0 + frames[i].1) / 2.0)];
    }
    assert frames[..|frames|] == frames;
  }

  method Loudest(samples: seq<real>, i: nat, blockSize: nat) returns (blockMax: real)
    requires blockSize == BlockSize(|samples|)
    ensures blockMax == BlockPeak(samples, i)
  {
    var start := i * blockSize;
    var end := start + blockSize;
    if end > |samples| {
      end := |samples|;
    }
    blockMax := 0.0;
    var j := start;
    while j < end
      invariant start <= j && (start <= end ==> j <= end)
      invariant blockMax == Top(if j <= |samples| then samples[start..j] else [], 0.0)
      invariant start >= end ==> j == start && blockMax == 0.0
    {
      assert samples[start..j + 1] == samples[start..j] + [samples[j]];
      if samples[j] > blockMax {
        blockMax := samples[j];
      }
      j := j + 1;
    }
  }

  lemma NextPeak(samples: seq<real>, i: nat)
    ensures Peaks(samples, i + 1) == Peaks(samples, i) + [BlockPeak(samples, i)]
    ensures var top, peak := Top(Peaks(samples, i), FLOOR), BlockPeak(samples, i);
      Top(Peaks(samples, i + 1), FLOOR) == if peak > top then peak else top
  {
    assert Peaks(samples, i + 1)[..i] == Peaks(samples, i);
  }

  /** Enters a block's peak and lets it raise the scale. */
  method Enter(filtered: array<real>, i: nat, blockMax: real, scale: real) returns (raised: real)
    requires i < filtered.Length
    modifies filtered
    ensures filtered[..i + 1] == old(filtered[..i]) + [blockMax]
    ensures raised == if blockMax > scale then blockMax else scale
  {
    filtered[i] := blockMax;
    raised := scale;
    if blockMax > scale {
      raised := blockMax;
    }
  }

  /** The peak of block i as the next of the peaks. */
  method NextBlock(samples: seq<real>, i: nat, blockSize: nat) returns (blockMax: real)
    requires blockSize == BlockSize(|samples|)
    ensures Peaks(samples, i + 1) == Peaks(samples, i) + [blockMax]
    ensures var top := Top(Peaks(samples, i), FLOOR);
      Top(Peaks(samples, i + 1), FLOOR) == if blockMax > top then blockMax else top
  {
    blockMax := Loudest(samples, i, blockSize);
    NextPeak(samples, i);
  }

  method Bin(samples: seq<real>) returns (filtered: array<real>, scale: real)
    ensures filtered.Length == NUM_SAMPLES && fresh(filtered)
    ensures filtered[..] == Peaks(samples, NUM_SAMPLES)
    ensures scale == Scale(samples)
  {
    var blockSize := |samples| / NUM_SAMPLES;
    if blockSize == 0 {
      blockSize := 1;
    }
    filtered := new real[NUM_SAMPLES];
    scale := FLOOR;
    for i := 0 to NUM_SAMPLES
      invariant filtered[..i] == Peaks(samples, i)
      invariant scale == Top(Peaks(samples, i), FLOOR)
    {
      var blockMax := NextBlock(samples, i, blockSize);
      scale := Enter(filtered, i, blockMax, scale);
    }
    assert filtered[..] == filtered[..NUM_SAMPLES];
  }

  method ScaleAll(filtered: array<real>, scale: real) returns (waveform: array<int>)
    requires filtered.Length == NUM_SAMPLES && scale > 0.0
    ensures waveform.Length == NUM_SAMPLES && fresh(waveform)
    ensures forall i :: 0 <= i < NUM_SAMPLES ==> waveform[i] == Percent(filtered[i], scale)
  {
    waveform := new int[NUM_SAMPLES];
    for i := 0 to NUM_SAMPLES
      invariant forall k :: 0 <= k < i ==> waveform[k] == Percent(filtered[k], scale)
    {
      var scaledValue := filtered[i] / scale * 100.0;
      if scaledValue > 100.0 {
        scaledValue := 100.0;
      }
      if scaledValue < 0.0 {
        scaledValue := 0.0;
      }
      waveform[i] := (scaledValue + 0.5).Floor;
    }
  }

  method GenerateWaveform(frames: seq<Frame>) returns (waveform: array<int>)
    ensures waveform.Length == 64 && fresh(waveform)
    ensures forall i :: 0 <= i < 64 ==> waveform[i] == Value(Amplitudes(frames), i)
  {
    var samples := Samples(frames);
    if |samples| == 0 {
      waveform := new int[NUM_SAMPLES](_ => 0);
      forall i | 0 <= i < NUM_SAMPLES ensures Value(samples, i) == 0 {
        SilenceIsZero(samples, i);
      }
      return;
    }
    var filtered, scale := Bin(samples);
    TopIs(Peaks(samples, NUM_SAMPLES), FLOOR);
    waveform := ScaleAll(filtered, scale);
    forall i | 0 <= i < NUM_SAMPLES ensures waveform[i] == Value(samples, i) {
      assert filtered[..][i] == filtered[i];
    }
  }

  lemma SilenceIsZero(samples: seq<real>, i: nat)
    requires samples == []
    ensures Value(samples, i) == 0
  {
    TopIs(Peaks(samples, NUM_SAMPLES), FLOOR);
    assert Block(samples, i) == [];
  }

  // ------------------------------------------------------------------ what the values say

  /** The scale is the floor or the loudest of the blocks, whichever is larger. */
  lemma ScaleIs(samples: seq<real>) returns (loudest: nat)
    ensures Scale(samples) >= FLOOR && forall i :: 0 <= i < NUM_SAMPLES ==> BlockPeak(samples, i) <= Scale(samples)
    ensures loudest < NUM_SAMPLES && (Scale(samples) == FLOOR || BlockPeak(samples, loudest) == Scale(samples))
  {
    var peaks := Peaks(samples, NUM_SAMPLES);
    TopIs(peaks, FLOOR);
    loudest := 0;
    forall i | 0 <= i < NUM_SAMPLES ensures BlockPeak(samples, i) <= Scale(samples) {
      assert peaks[i] <= Top(peaks, FLOOR);
    }
    if Scale(samples) != FLOOR {
      loudest :| 0 <= loudest < |peaks| && peaks[loudest] == Top(peaks, FLOOR);
    }
  }

  lemma ShareOf(a: real, m: real)
    requires 0.0 <= a <= m && m > 0.0
    ensures 0.0 <= a / m <= 1.0
  {
  }

  /** Every value is a percentage of the loudest block; the bounds of the code never cut. */
  lemma ValueIsShare(samples: seq<real>, i: nat)
    requires i < NUM_SAMPLES
    ensures Scale(samples) >= FLOOR && 0.0 <= BlockPeak(samples, i) <= Scale(samples)
    ensures 0.0 <= BlockPeak(samples, i) / Scale(samples) * 100.0 <= 100.0
    ensures Value(samples, i) == Round(BlockPeak(samples, i) / Scale(samples) * 100.0)
    ensures 0 <= Value(samples, i) <= 100
  {
    var _ := ScaleIs(samples);
    TopIs(Block(samples, i), 0.0);
    ShareOf(BlockPeak(samples, i), Scale(samples));
  }

  /** And within one half of it. */
  lemma WithinOneHalf(samples: seq<real>, i: nat)
    requires i < NUM_SAMPLES
    ensures Scale(samples) > 0.0 &&
      var share := BlockPeak(samples, i) / Scale(samples) * 100.0;
      share - 0.5 < Value(samples, i) as real <= share + 0.5
  {
    ValueIsShare(samples, i);
  }

  /** The amplitude of a frame is half the sum of its channels, whichever way it points; where both are
      equal, that of either. */
  lemma AmplitudeIs(f: Frame)
    ensures 2.0 * Amplitude(f) == Max(f.0 + f.1, -(f.0 + f.1))
    ensures f.0 == f.1 ==> Amplitude(f) == f.0 || Amplitude(f) == -f.0
  {
  }

  lemma ShareMonotone(a: real, b: real, m: real)
    requires a <= b && m > 0.0
    ensures a / m <= b / m
  {
  }

  /** A louder block never gets the smaller value. */
  lemma LouderIsHigher(samples: seq<real>, i: nat, j: nat)
    requires i < NUM_SAMPLES && j < NUM_SAMPLES && BlockPeak(samples, i) <= BlockPeak(samples, j)
    ensures Value(samples, i) <= Value(samples, j)
  {
    ValueIsShare(samples, i);
    ValueIsShare(samples, j);
    ShareMonotone(BlockPeak(samples, i), BlockPeak(samples, j), Scale(samples));
  }

  /** The samples that reach some block; a remainder behind the last full block does not. */
  function Covered(n: nat): (c: nat)
    ensures c <= n && (n < NUM_SAMPLES ==> c == n)
    ensures n - c < NUM_SAMPLES
  {
    if n < NUM_SAMPLES then n else NUM_SAMPLES * BlockSize(n)
  }

  lemma InSlot(j: nat, size: nat, i: nat)
    requires size >= 1
    ensures i * size <= j < i * size + size <==> j / size == i
  {
    var q := j / size;
    assert j == q * size + j % size;
    if q < i {
      Multiply(q + 1, i, size);
    } else if q > i {
      Multiply(i + 1, q, size);
    }
  }

  /** Block i holds sample j exactly when j is covered and lies i block sizes from the start. */
  lemma BlockOf(n: nat, i: nat, j: nat)
    requires i < NUM_SAMPLES
    ensures i * BlockSize(n) <= j < BlockEnd(n, i) <==> j < Covered(n) && j / BlockSize(n) == i
  {
    var size := BlockSize(n);
    InSlot(j, size, i);
    if n >= NUM_SAMPLES {
      Multiply(i + 1, NUM_SAMPLES, size);
      assert i * size + size <= NUM_SAMPLES * size <= n;
    } else {
      assert size == 1;
    }
  }

  lemma Multiply(a: nat, b: nat, c: nat)
    requires a <= b
    ensures a * c <= b * c
  {
  }

  predicate Audible(samples: seq<real>, threshold: real) {
    exists j :: 0 <= j < Covered(|samples|) && samples[j] >= threshold
  }

  lemma SampleInBlock(samples: seq<real>, j: nat) returns (i: nat)
    requires j < Covered(|samples|)
    ensures i < NUM_SAMPLES && BlockPeak(samples, i) >= samples[j]
  {
    var n := |samples|;
    i := j / BlockSize(n);
    BlockIndex(n, j);
    BlockOf(n, i, j);
    TopIs(Block(samples, i), 0.0);
    assert Block(samples, i)[j - i * BlockSize(n)] == samples[j];
  }

  lemma PeakIsSample(samples: seq<real>, i: nat) returns (j: nat)
    requires i < NUM_SAMPLES && BlockPeak(samples, i) > 0.0
    ensures j < Covered(|samples|) && samples[j] == BlockPeak(samples, i)
  {
    var n := |samples|;
    var block := Block(samples, i);
    TopIs(block, 0.0);
    var k :| 0 <= k < |block| && block[k] == BlockPeak(samples, i);
    j := i * BlockSize(n) + k;
    assert block[k] == samples[j];
    BlockOf(n, i, j);
  }

  lemma AudibleBlock(samples: seq<real>, threshold: real)
    requires threshold > 0.0
    ensures Audible(samples, threshold) <==> exists i :: 0 <= i < NUM_SAMPLES && BlockPeak(samples, i) >= threshold
  {
    if j :| 0 <= j < Covered(|samples|) && samples[j] >= threshold {
      var i := SampleInBlock(samples, j);
    }
    if i :| 0 <= i < NUM_SAMPLES && BlockPeak(samples, i) >= threshold {
      var j := PeakIsSample(samples, i);
    }
  }

  lemma BlockIndex(n: nat, j: nat)
    requires j < Covered(n)
    ensures 0 <= j / BlockSize(n) < NUM_SAMPLES
  {
    var size := BlockSize(n);
    assert j == (j / size) * size + j % size;
    if j / size >= NUM_SAMPLES {
      Multiply(NUM_SAMPLES, j / size, size);
    }
  }

  /** Some value is 100 exactly when a covered sample reaches 0.000995: below that, even the
      loudest rounds down against the floor. */
  lemma FullScaleExactly(samples: seq<real>)
    ensures (exists i :: 0 <= i < NUM_SAMPLES && Value(samples, i) == 100) <==> Audible(samples, 0.000995)
  {
    AudibleBlock(samples, 0.000995);
    var loudest := ScaleIs(samples);
    if Audible(samples, 0.000995) {
      var i :| 0 <= i < NUM_SAMPLES && BlockPeak(samples, i) >= 0.000995;
      if Scale(samples) != FLOOR {
        i := loudest;
      }
      ValueIsShare(samples, i);
      FullShare(BlockPeak(samples, i), Scale(samples));
      assert Value(samples, i) == 100;
    }
    if i :| 0 <= i < NUM_SAMPLES && Value(samples, i) == 100 {
      ValueIsShare(samples, i);
      if BlockPeak(samples, i) < 0.000995 {
        SmallShare(BlockPeak(samples, i), Scale(samples));
      }
    }
  }

  lemma FullShare(a: real, m: real)
    requires m >= FLOOR && 0.0 <= a <= m && (a == m || (m == FLOOR && a >= 0.000995))
    ensures a / m * 100.0 >= 99.5
  {
    if a != m {
      assert a / FLOOR == a * 1000.0;
    }
  }

  lemma SmallShare(a: real, m: real)
    requires m >= FLOOR && 0.0 <= a < 0.000995
    ensures a / m * 100.0 < 99.5
  {
    assert a < 0.995 * m;
    assert a / m < 0.995;
  }

  // ------------------------------------------------------------------ the volume does not matter

  /** The same samples, all of them louder or softer by one factor. */
  predicate Amplified(gain: real, samples: seq<real>, out: seq<real>) {
    |out| == |samples| && forall i :: 0 <= i < |samples| ==> out[i] == gain * samples[i]
  }

  ghost predicate Monotone(g: real -> real) {
    forall a, b :: a <= b ==> g(a) <= g(b)
  }

  ghost predicate Mapped(g: real -> real, xs: seq<real>, ys: seq<real>) {
    |ys| == |xs| && forall i :: 0 <= i < |xs| ==> ys[i] == g(xs[i])
  }

  lemma {:induction false} TopMaps(xs: seq<real>, ys: seq<real>, g: real -> real, base: real)
    requires Monotone(g) && Mapped(g, xs, ys)
    ensures Top(ys, g(base)) == g(Top(xs, base))
  {
    if xs != [] {
      TopMaps(xs[..|xs| - 1], ys[..|xs| - 1], g, base);
    }
  }

  /** Where some value reaches both bases, the base does not matter. */
  lemma {:induction false} BaseIrrelevant(xs: seq<real>, w: nat, base: real, other: real)
    requires w < |xs| && base <= xs[w] && other <= xs[w]
    ensures Top(xs, base) == Top(xs, other)
  {
    if w < |xs| - 1 {
      BaseIrrelevant(xs[..|xs| - 1], w, base, other);
    } else {
      TopBase(xs[..w], base, other);
    }
  }

  lemma {:induction false} TopBase(xs: seq<real>, base: real, other: real)
    ensures Top(xs, Max(base, other)) == Max(Top(xs, base), other) == Max(Top(xs, other), base)
  {
    if xs != [] {
      TopBase(xs[..|xs| - 1], base, other);
    }
  }

  lemma BlockMaps(samples: seq<real>, out: seq<real>, g: real -> real, i: nat)
    requires Monotone(g) && g(0.0) == 0.0 && Mapped(g, samples, out)
    ensures BlockPeak(out, i) == g(BlockPeak(samples, i))
  {
    TopMaps(Block(samples, i), Block(out, i), g, 0.0);
  }

  /** w is a block that stays above the floor on both sides. */
  lemma ScaleMaps(samples: seq<real>, out: seq<real>, g: real -> real, w: nat)
    requires Monotone(g) && g(0.0) == 0.0 && Mapped(g, samples, out)
    requires w < NUM_SAMPLES && BlockPeak(samples, w) >= FLOOR && BlockPeak(out, w) >= FLOOR
    ensures Scale(out) == g(Scale(samples))
  {
    var xs, ys := Peaks(samples, NUM_SAMPLES), Peaks(out, NUM_SAMPLES);
    forall i | 0 <= i < NUM_SAMPLES ensures ys[i] == g(xs[i]) {
      BlockMaps(samples, out, g, i);
    }
    TopMaps(xs, ys, g, FLOOR);
    BaseIrrelevant(ys, w, FLOOR, g(FLOOR));
  }

  lemma CancelGain(gain: real, a: real, m: real)
    requires gain > 0.0 && m > 0.0
    ensures gain * m > 0.0 && Percent(gain * a, gain * m) == Percent(a, m)
  {
    assert gain * m > 0.0;
    assert (a / m) * (gain * m) == gain * (a / m * m) == gain * a;
    assert (gain * a) / (gain * m) == a / m;
  }

  ghost predicate Raises(g: real -> real) {
    forall x :: x >= 0.0 ==> g(x) >= x
  }

  ghost predicate Lowers(g: real -> real) {
    forall x :: x >= 0.0 ==> g(x) <= x
  }

  lemma GainRaises(gain: real, x: real)
    requires x >= 0.0 && gain > 0.0
    ensures if gain >= 1.0 then gain * x >= x else gain * x <= x
  {
  }

  function Gain(gain: real): real -> real {
    x => gain * x
  }

  lemma GainShape(gain: real)
    requires gain > 0.0
    ensures Monotone(Gain(gain)) && Gain(gain)(0.0) == 0.0
  {
  }

  lemma GainDirection(gain: real)
    requires gain > 0.0
    ensures Raises(Gain(gain)) || Lowers(Gain(gain))
  {
    forall x | x >= 0.0 ensures if gain >= 1.0 then Gain(gain)(x) >= x else Gain(gain)(x) <= x {
      GainRaises(gain, x);
    }
  }

  lemma GainMapped(samples: seq<real>, out: seq<real>, gain: real)
    requires Amplified(gain, samples, out)
    ensures Mapped(Gain(gain), samples, out)
  {
  }

  lemma AmplifiedMaps(samples: seq<real>, out: seq<real>, gain: real, a: real, m: real) returns (g: real -> real)
    requires gain > 0.0 && Amplified(gain, samples, out)
    ensures Monotone(g) && g(0.0) == 0.0 && Mapped(g, samples, out)
    ensures g(a) == gain * a && g(m) == gain * m
  {
    g := Gain(gain);
    GainShape(gain);
    GainMapped(samples, out, gain);
  }

  lemma GainMaps(samples: seq<real>, out: seq<real>, gain: real) returns (g: real -> real)
    requires gain > 0.0 && Amplified(gain, samples, out)
    ensures Monotone(g) && g(0.0) == 0.0 && Mapped(g, samples, out)
    ensures Raises(g) || Lowers(g)
  {
    g := Gain(gain);
    GainShape(gain);
    GainDirection(gain);
    GainMapped(samples, out, gain);
  }

  lemma PercentGain(g: real -> real, gain: real, a: real, m: real)
    requires gain > 0.0 && m > 0.0 && g(a) == gain * a && g(m) == gain * m
    ensures g(m) != 0.0 && Percent(g(a), g(m)) == Percent(a, m)
  {
    CancelGain(gain, a, m);
  }

  lemma ShareInvariant(samples: seq<real>, out: seq<real>, g: real -> real, i: nat, w: nat)
    requires Monotone(g) && g(0.0) == 0.0 && Mapped(g, samples, out) && i < NUM_SAMPLES
    requires Scale(samples) != 0.0 && g(Scale(samples)) != 0.0
    requires Percent(g(BlockPeak(samples, i)), g(Scale(samples))) == Percent(BlockPeak(samples, i), Scale(samples))
    requires w < NUM_SAMPLES && BlockPeak(samples, w) >= FLOOR && BlockPeak(out, w) >= FLOOR
    ensures Value(out, i) == Value(samples, i)
  {
    ScaleMaps(samples, out, g, w);
    BlockMaps(samples, out, g, i);
  }

  lemma GainOfMapped(samples: seq<real>, out: seq<real>, g: real -> real, gain: real, i: nat, w: nat)
    requires Monotone(g) && g(0.0) == 0.0 && Mapped(g, samples, out) && gain > 0.0 && i < NUM_SAMPLES
    requires g(BlockPeak(samples, i)) == gain * BlockPeak(samples, i) && g(Scale(samples)) == gain * Scale(samples)
    requires w < NUM_SAMPLES && BlockPeak(samples, w) >= FLOOR && BlockPeak(out, w) >= FLOOR
    ensures Value(out, i) == Value(samples, i)
  {
    var _ := ScaleIs(samples);
    PercentGain(g, gain, BlockPeak(samples, i), Scale(samples));
    ShareInvariant(samples, out, g, i, w);
  }

  /** Some block is above the floor. */
  predicate Loud(samples: seq<real>) {
    exists w :: 0 <= w < NUM_SAMPLES && BlockPeak(samples, w) >= FLOOR
  }

  /** Then one block is above it on both sides. */
  lemma LoudTogether(samples: seq<real>, out: seq<real>, g: real -> real) returns (w: nat)
    requires Monotone(g) && g(0.0) == 0.0 && Mapped(g, samples, out) && (Raises(g) || Lowers(g))
    requires Loud(samples) && Loud(out)
    ensures w < NUM_SAMPLES && BlockPeak(samples, w) >= FLOOR && BlockPeak(out, w) >= FLOOR
  {
    if Raises(g) {
      w :| 0 <= w < NUM_SAMPLES && BlockPeak(samples, w) >= FLOOR;
    } else {
      w :| 0 <= w < NUM_SAMPLES && BlockPeak(out, w) >= FLOOR;
    }
    TopIs(Block(samples, w), 0.0);
    BlockMaps(samples, out, g, w);
  }

  lemma GainAt(samples: seq<real>, out: seq<real>, gain: real, i: nat, w: nat)
    requires i < NUM_SAMPLES && gain > 0.0 && Amplified(gain, samples, out)
    requires w < NUM_SAMPLES && BlockPeak(samples, w) >= FLOOR && BlockPeak(out, w) >= FLOOR
    ensures Value(out, i) == Value(samples, i)
  {
    var g := AmplifiedMaps(samples, out, gain, BlockPeak(samples, i), Scale(samples));
    GainOfMapped(samples, out, g, gain, i, w);
  }

  lemma LoudWitness(samples: seq<real>, out: seq<real>, gain: real) returns (w: nat)
    requires gain > 0.0 && Amplified(gain, samples, out) && Loud(samples) && Loud(out)
    ensures w < NUM_SAMPLES && BlockPeak(samples, w) >= FLOOR && BlockPeak(out, w) >= FLOOR
  {
    var g := GainMaps(samples, out, gain);
    w := LoudTogether(samples, out, g);
  }

  /** Turning the volume up or down leaves the waveform as it is, as long as it is loud enough on
      both sides. */
  lemma GainInvariant(samples: seq<real>, out: seq<real>, gain: real, i: nat)
    requires i < NUM_SAMPLES && gain > 0.0
    ensures Amplified(gain, samples, out) && Loud(samples) && Loud(out) ==> Value(out, i) == Value(samples, i)
  {
    if Amplified(gain, samples, out) && Loud(samples) && Loud(out) {
      var w := LoudWitness(samples, out, gain);
      GainAt(samples, out, gain, i, w);
    }
  }
}
