/** The spectrogram trace of `on_draw`: 1024 line segments joining the decibel levels of
    neighbouring frequency bins in the current spectrogram column. */
module Trace {
  import opened Wrappers
  import opened Colors
  import opened PyNum
  import Palette

  /** Frequency bins of the spectrogram (a 2048-point transform), and the x divisor. */
  const Bins := 1025

  /** One `arcade.draw_line(x1, y1, x2, y2, colour, 1)` call. */
  datatype Segment = Segment(x1: real, y1: int, x2: real, y2: int, color: Option<Rgb>)

  /** `int(db * height / 200 + 150)`: the screen height of a decibel level. */
  function Level(db: real, height: int): int
  {
    Trunc(Screen(db, height))
  }

  /** `db * height / 200 + 150` before truncation. */
  function Screen(db: real, height: int): real
  {
    db * height as real / 200.0 + 150.0
  }

  /** On a window of non-negative height a louder bin has a screen height at least as high. */
  lemma ScreenMonotone(db1: real, db2: real, height: nat)
    requires db1 <= db2
    ensures Screen(db1, height) <= Screen(db2, height)
  {
    ScaleMonotone(db1, db2, height as real);
  }

  /** A louder bin never sits lower on a window of non-negative height. */
  lemma LevelMonotone(db1: real, db2: real, height: nat)
    requires db1 <= db2
    ensures Level(db1, height) <= Level(db2, height)
  {
    ScreenMonotone(db1, db2, height);
    TruncMonotone(Screen(db1, height), Screen(db2, height));
  }

  /** Scaling by a non-negative real keeps the order. */
  lemma ScaleMonotone(x: real, y: real, h: real)
    requires x <= y && 0.0 <= h
    ensures x * h <= y * h
  {
    assert (y - x) * h >= 0.0;
  }

  lemma TruncMonotone(x: real, y: real)
    requires x <= y
    ensures Trunc(x) <= Trunc(y)
  {
  }

  /** The horizontal position `width * i / 1025` of bin `i`. */
  function X(width: int, i: int): real
  {
    (width * i) as real / Bins as real
  }

  /** Every row of the spectrogram has the column `col`. */
  predicate HasColumn(db: seq<seq<real>>, col: int)
  {
    0 <= col && forall b :: 0 <= b < |db| ==> col < |db[b]|
  }

  /** The segment drawn for bin `i` (1..1024): from bin `i - 1` to bin `i`. */
  function SegmentAt(db: seq<seq<real>>, col: int, i: int, width: int, height: int,
                     palette: string): Segment
    requires 1 <= i < |db| && HasColumn(db, col)
  {
    Segment(X(width, i), Level(db[i - 1][col], height),
            X(width, i + 1), Level(db[i][col], height),
            Palette.GetColor(palette, i))
  }

  /** The loop `for i in range(1, 1025)`: the segments of the trace, in drawing order.
      They form one connected polyline across the window, each vertex at the level of its
      bin, coloured bin by bin by the palette. */
  method Segments(db: seq<seq<real>>, col: int, width: int, height: int, palette: string)
    returns (segs: seq<Segment>)
    requires |db| == Bins && HasColumn(db, col)
    ensures |segs| == Bins - 1
    ensures forall k :: 0 <= k < |segs| ==>
      && segs[k].x1 == X(width, k + 1) && segs[k].x2 == X(width, k + 2)
      && segs[k].y1 == Level(db[k][col], height) && segs[k].y2 == Level(db[k + 1][col], height)
      && segs[k].color == Palette.GetColor(palette, k + 1)
    ensures forall k :: 0 < k < |segs| ==> segs[k - 1].x2 == segs[k].x1 && segs[k - 1].y2 == segs[k].y1
    ensures segs[0].x1 == width as real / Bins as real && segs[Bins - 2].x2 == width as real
    ensures 0 < width ==> forall k :: 0 <= k < |segs| ==> segs[k].x1 < segs[k].x2
  {
    segs := [];
    var i := 1;
    while i < Bins
      invariant 1 <= i <= Bins
      invariant |segs| == i - 1
      invariant forall k :: 0 <= k < |segs| ==> segs[k] == SegmentAt(db, col, k + 1, width, height, palette)
    {
      var x1 := X(width, i);
      var x2 := X(width, i + 1);
      var y1 := Level(db[i - 1][col], height);
      var y2 := Level(db[i][col], height);
      segs := segs + [Segment(x1, y1, x2, y2, Palette.GetColor(palette, i))];
      i := i + 1;
    }
    assert X(width, Bins) == width as real;
    if 0 < width {
      forall k | 0 <= k < |segs| ensures segs[k].x1 < segs[k].x2 {
        assert width * (k + 1) < width * (k + 2);
      }
    }
  }
}
