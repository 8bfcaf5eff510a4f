/** The rainbow palette's colour conversion: `hsv2rgb`, which runs the Python standard
    library's `colorsys.hsv_to_rgb` and rounds each channel, scaled to 0..255. */
module Hsv {
  import opened PyNum
  import opened Colors

  /** `colorsys.hsv_to_rgb(h, s, v)`: the sextant of the hue picks which channel
      rises, falls, sits at the value `v` or at the floor `v * (1 - s)`. */
  function HsvToRgb(h: real, s: real, v: real): (c: (real, real, real))
    ensures 0.0 <= h && 0.0 <= s <= 1.0 && 0.0 <= v ==>
      && v * (1.0 - s) <= c.0 <= v && v * (1.0 - s) <= c.1 <= v && v * (1.0 - s) <= c.2 <= v
      && (c.0 == v || c.1 == v || c.2 == v)
      && (c.0 == v * (1.0 - s) || c.1 == v * (1.0 - s) || c.2 == v * (1.0 - s))
  {
    if s == 0.0 then (v, v, v)
    else
      var i := Trunc(h * 6.0);
      var f := h * 6.0 - i as real;
      var p := v * (1.0 - s);
      var q := v * (1.0 - s * f);
      var t := v * (1.0 - s * (1.0 - f));
      assert 0.0 <= h ==> 0.0 <= f < 1.0;
      ChannelsBetween(s, v, f, p, q, t);
      Pick(i, v, p, q, t)
  }

  /** The channel order of each of the six hue sextants. */
  function Pick(i: int, v: real, p: real, q: real, t: real): (c: (real, real, real))
    ensures p <= q <= v && p <= t <= v ==> p <= c.0 <= v && p <= c.1 <= v && p <= c.2 <= v
    ensures c.0 == v || c.1 == v || c.2 == v
    ensures c.0 == p || c.1 == p || c.2 == p
  {
    match i % 6
    case 0 => (v, t, p)
    case 1 => (q, v, p)
    case 2 => (p, v, t)
    case 3 => (p, q, v)
    case 4 => (t, p, v)
    case _ => (v, p, q)
  }

  /** With a fraction `f` of the sextant, the falling and rising channels of `HsvToRgb`
      lie between the floor `v * (1 - s)`, itself non-negative, and the value `v`. */
  lemma SextantBounds(s: real, v: real, f: real)
    ensures 0.0 <= s <= 1.0 && 0.0 <= v && 0.0 <= f < 1.0 ==>
      && 0.0 <= v * (1.0 - s) <= v
      && v * (1.0 - s) <= v * (1.0 - s * f) <= v
      && v * (1.0 - s) <= v * (1.0 - s * (1.0 - f)) <= v
  {
    if 0.0 <= s <= 1.0 && 0.0 <= v && 0.0 <= f < 1.0 {
      ProductBetween(s, f);
      ProductBetween(s, 1.0 - f);
      ScaleBetween(v, 0.0, 1.0 - s, 1.0);
      ScaleBetween(v, 1.0 - s, 1.0 - s * f, 1.0);
      ScaleBetween(v, 1.0 - s, 1.0 - s * (1.0 - f), 1.0);
    }
  }

  /** The same bounds, for channels named `p`, `q` and `t` as in `HsvToRgb`. */
  lemma ChannelsBetween(s: real, v: real, f: real, p: real, q: real, t: real)
    requires p == v * (1.0 - s) && q == v * (1.0 - s * f) && t == v * (1.0 - s * (1.0 - f))
    ensures 0.0 <= s <= 1.0 && 0.0 <= v && 0.0 <= f < 1.0 ==> p <= q <= v && p <= t <= v
  {
    SextantBounds(s, v, f);
  }

  lemma ProductBetween(s: real, f: real)
    requires 0.0 <= s && 0.0 <= f <= 1.0
    ensures 0.0 <= s * f <= s
  {
    assert s * f <= s * 1.0;
  }

  lemma ScaleBetween(v: real, lo: real, x: real, hi: real)
    requires 0.0 <= v && lo <= x <= hi
    ensures v * lo <= v * x <= v * hi
  {
    assert v * (x - lo) >= 0.0;
    assert v * (hi - x) >= 0.0;
  }

  /** `hsv2rgb(h, s, v)`: each channel of `colorsys.hsv_to_rgb` scaled by 255 and
      rounded by `round`. */
  function Hsv2Rgb(h: real, s: real, v: real): (c: Rgb)
    ensures 0.0 <= h && 0.0 <= s <= 1.0 && 0.0 <= v <= 1.0 ==> c.InGamut()
  {
    var (r, g, b) := HsvToRgb(h, s, v);
    SextantBounds(s, v, 0.0);
    ChannelToByte(r);
    ChannelToByte(g);
    ChannelToByte(b);
    Rgb(Round(r * 255.0), Round(g * 255.0), Round(b * 255.0))
  }

  /** A channel in 0..1 scales and rounds to a byte value. */
  lemma ChannelToByte(x: real)
    ensures 0.0 <= x <= 1.0 ==> 0 <= Round(x * 255.0) <= 255
  {
  }

  /** The colour the rainbow palette gives bin `i`: hue `i / 1024`, full saturation,
      value one half. */
  function RainbowColor(i: int): Rgb
  {
    Hsv2Rgb(i as real / 1024.0, 1.0, 0.5)
  }

  /** For every bin index from 0 on, a rainbow colour is a fully saturated half-bright
      colour: its components lie in 0..128, one of them is 128 (half of 255 rounded to
      even) and one is 0. */
  lemma RainbowIsSaturatedHalfBright(i: int)
    requires 0 <= i
    ensures var c := RainbowColor(i);
      && 0 <= c.r <= 128 && 0 <= c.g <= 128 && 0 <= c.b <= 128
      && (c.r == 128 || c.g == 128 || c.b == 128)
      && (c.r == 0 || c.g == 0 || c.b == 0)
  {
    var (r, g, b) := HsvToRgb(i as real / 1024.0, 1.0, 0.5);
    assert 0.0 <= r <= 0.5 && 0.0 <= g <= 0.5 && 0.0 <= b <= 0.5;
    RoundOfChannel(r);
    RoundOfChannel(g);
    RoundOfChannel(b);
  }

  /** A channel in 0..1/2 rounds to 0..128, and its end points to exactly 0 and 128. */
  lemma RoundOfChannel(x: real)
    requires 0.0 <= x <= 0.5
    ensures 0 <= Round(x * 255.0) <= 128
    ensures x == 0.0 ==> Round(x * 255.0) == 0
    ensures x == 0.5 ==> Round(x * 255.0) == 128
  {
    if x == 0.5 {
      RoundUnique(127.5, 128);
    }
  }
}
