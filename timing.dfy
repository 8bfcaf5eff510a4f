/** Mapping the playback clock to buffer indices: the envelope sample index and the
    spectrogram frame (column) that `on_draw` reads. */
module Timing {
  import opened PyNum

  /** `pos = int(stream_position * sr)`: the envelope sample under the playback clock. */
  function SampleIndex(position: real, sampleRate: nat): (pos: int)
    ensures 0.0 <= position ==>
      0 <= pos && pos as real <= position * sampleRate as real < pos as real + 1.0
  {
    Trunc(position * sampleRate as real)
  }

  /** A later playback position never maps to an earlier sample. */
  lemma SampleIndexMonotone(p1: real, p2: real, sampleRate: nat)
    requires 0.0 <= p1 <= p2
    ensures SampleIndex(p1, sampleRate) <= SampleIndex(p2, sampleRate)
  {
    assert p1 * sampleRate as real <= p2 * sampleRate as real by {
      assert (p2 - p1) * sampleRate as real >= 0.0;
    }
  }

  /** `self.lengthConversion = len(self.wav) / len(self.fourierDb[0])`: samples per
      spectrogram frame. */
  function LengthConversion(samples: nat, frames: nat): (c: real)
    requires 0 < frames
    ensures c * frames as real == samples as real
  {
    samples as real / frames as real
  }

  /** `int(pos / self.lengthConversion) + 1`: the spectrogram column read for sample `pos`;
      a zero conversion factor would raise a division by zero. */
  function Column(pos: int, lengthConversion: real): (col: int)
    requires lengthConversion != 0.0
    ensures 0 <= pos && 0.0 < lengthConversion ==> 1 <= col
  {
    Trunc(pos as real / lengthConversion) + 1
  }

  /** Over integers the column is `pos * frames / samples + 1` (division rounding down). */
  lemma {:induction false} ColumnIsScaledSample(pos: nat, samples: nat, frames: nat)
    requires 0 < samples && 0 < frames
    ensures Column(pos, LengthConversion(samples, frames)) == pos * frames / samples + 1
  {
    var c := LengthConversion(samples, frames);
    assert pos as real / c == (pos * frames) as real / samples as real;
    TruncOfQuotient(pos * frames, samples);
  }

  /** A later sample never maps to an earlier column. */
  lemma ColumnMonotone(pos1: nat, pos2: nat, samples: nat, frames: nat)
    requires 0 < samples && 0 < frames && pos1 <= pos2
    ensures Column(pos1, LengthConversion(samples, frames)) <=
            Column(pos2, LengthConversion(samples, frames))
  {
    ColumnIsScaledSample(pos1, samples, frames);
    ColumnIsScaledSample(pos2, samples, frames);
    assert pos1 * frames <= pos2 * frames;
    DivMonotone(pos1 * frames, pos2 * frames, samples);
  }

  lemma DivMonotone(a: int, b: int, d: int)
    requires 0 <= a <= b && 0 < d
    ensures a / d <= b / d
  {
    var qa, qb := a / d, b / d;
    assert qa * d <= a && b < (qb + 1) * d;
    MulCancel(qa, qb + 1, d);
  }

  lemma MulMonotone(a: int, b: int, n: int)
    ensures a <= b && 0 <= n ==> a * n <= b * n
  {
    if a <= b && 0 <= n {
      assert (b - a) * n >= 0;
    }
  }

  lemma MulCancel(a: int, b: int, n: int)
    ensures a * n < b * n && 0 < n ==> a < b
  {
    MulMonotone(b, a, n);
  }

  /** Integer division rounds down: `a / d` times `d` is at most `a`, and one more `d`
      exceeds it. */
  lemma DivBounds(a: int, d: int)
    requires 0 < d
    ensures (a / d) * d <= a < (a / d) * d + d
  {
  }

  lemma MulSuccessor(q: int, n: int)
    ensures (q + 1) * n == q * n + n
  {
  }

  /** The quotient `p * f / n` of a sample `p < n` lies in 0..f-1, and stays below
      `f - 1` exactly when `p * f < n * (f - 1)`. */
  lemma ScaledQuotient(p: nat, n: nat, f: nat)
    requires p < n && 0 < f
    ensures 0 <= p * f / n <= f - 1
    ensures p * f / n + 1 < f <==> p * f < n * (f - 1)
  {
    var m := p * f;
    var q := m / n;
    DivBounds(m, n);
    var qn := q * n;
    assert qn <= m < qn + n;
    // m lies below n * f
    MulLess(p, n, f);
    assert m < n * f;
    // so q lies below f
    MulCancel(q, f, n);
    assert q * n < f * n;
    assert q < f;
    // the threshold f - 1
    MulSuccessor(q, n);
    MulMonotone(q + 1, f - 1, n);
    MulCancel(q, f - 1, n);
    assert n * (f - 1) == (f - 1) * n;
  }

  lemma MulLess(p: int, n: int, f: int)
    ensures p < n && 0 < f ==> p * f < n * f
  {
    if p < n && 0 < f {
      assert (n - p) * f > 0;
    }
  }

  /** For every sample of the track the column lies in 1..frames; it is a valid frame
      index exactly when `pos * frames < samples * (frames - 1)`, so the samples of the
      final hop map one past the last frame. */
  lemma {:induction false} ColumnBounds(pos: nat, samples: nat, frames: nat)
    requires 0 < frames && pos < samples
    ensures 1 <= Column(pos, LengthConversion(samples, frames)) <= frames
    ensures Column(pos, LengthConversion(samples, frames)) < frames <==>
      pos * frames < samples * (frames - 1)
  {
    ColumnIsScaledSample(pos, samples, frames);
    ScaledQuotient(pos, samples, frames);
  }

  /** When the track has at least as many samples as frames, its last sample maps to
      column `frames`, one past the last frame of the spectrogram. */
  lemma LastSampleOverrunsSpectrogram(samples: nat, frames: nat)
    requires 0 < frames <= samples
    ensures Column(samples - 1, LengthConversion(samples, frames)) == frames
  {
    ColumnBounds(samples - 1, samples, frames);
    assert (samples - 1) * frames >= samples * (frames - 1);
  }
}
