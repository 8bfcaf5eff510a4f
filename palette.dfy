/** Palette selection and `get_color`: the colour of spectrogram bin `i` under the
    palette named by the `COLOR` environment variable. */
module Palette {
  import opened Wrappers
  import opened Colors
  import Hsv

  /** `str.lower()` on one character, for the ASCII letters. */
  function LowerChar(c: char): char
  {
    if 'A' <= c <= 'Z' then (c as int + 32) as char else c
  }

  predicate IsLower(s: string)
  {
    forall k :: 0 <= k < |s| ==> !('A' <= s[k] <= 'Z')
  }

  /** `str.lower()`: every character lower-cased, in place. */
  function Lower(s: string): (r: string)
    ensures |r| == |s|
    ensures forall k :: 0 <= k < |s| ==> r[k] == LowerChar(s[k])
    ensures IsLower(r)
  {
    if s == [] then [] else [LowerChar(s[0])] + Lower(s[1..])
  }

  /** Lower-casing twice is lower-casing once. */
  lemma LowerIdempotent(s: string)
    ensures Lower(Lower(s)) == Lower(s)
  {
    var r := Lower(s);
    assert Lower(r) == r by {
      forall k | 0 <= k < |r| ensures Lower(r)[k] == r[k] {
        assert !('A' <= r[k] <= 'Z');
      }
    }
  }

  /** The palette name: the lower-cased value of `COLOR`, or "rainbow" when the
      variable is unset or empty. */
  function PaletteName(env: Option<string>): (name: string)
    ensures name != [] && IsLower(name)
    ensures env.None? || env.value == [] ==> name == "rainbow"
    ensures env.Some? && env.value != [] ==> name == Lower(env.value)
  {
    if env.Some? && env.value != [] then Lower(env.value) else "rainbow"
  }

  /** The names `get_color` recognises. */
  const Known: set<string> := {"rainbow", "white", "trans", "enby", "pan"}

  // Flag colours of the three banded palettes.
  const TransBlue := Rgb(91, 206, 250)
  const TransPink := Rgb(245, 169, 184)
  const EnbyYellow := Rgb(255, 244, 48)
  const EnbyPurple := Rgb(156, 89, 209)
  const PanBlue := Rgb(33, 177, 255)
  const PanYellow := Rgb(255, 216, 0)
  const PanPink := Rgb(255, 33, 140)

  /** `get_color(i)` under palette `name`; `None` for a name no branch recognises. */
  function GetColor(name: string, i: int): (c: Option<Rgb>)
    ensures c.None? <==> name !in Known
    ensures c.Some? && (name != "rainbow" || 0 <= i) ==> c.value.InGamut()
  {
    if name == "rainbow" then
      Hsv.RainbowIsSaturatedHalfBright(if 0 <= i then i else 0);
      Some(Hsv.RainbowColor(i))
    else if name == "white" then Some(White)
    else if name == "trans" then
      if i < 205 then Some(TransBlue)
      else if i < 410 then Some(TransPink)
      else if i < 615 then Some(White)
      else if i < 820 then Some(TransPink)
      else Some(TransBlue)
    else if name == "enby" then
      if i < 256 then Some(EnbyYellow)
      else if i < 512 then Some(White)
      else if i < 768 then Some(EnbyPurple)
      else Some(Black)
    else if name == "pan" then
      if i < 342 then Some(PanBlue)
      else if i < 683 then Some(PanYellow)
      else Some(PanPink)
    else None
  }

  /** The default palette, and any value of `COLOR` that lower-cases to a known name,
      gives every bin a colour; any other value gives none. */
  lemma PaletteNameSelects(env: Option<string>, i: int)
    ensures GetColor(PaletteName(env), i).Some? <==>
      env.None? || env.value == [] || Lower(env.value) in Known
  {
  }

  // ---------------------------------------------------------------------------
  // Band tables: an independent description of the three flag palettes.

  /** The band of `i` under ascending cut points: how many cut points are at or below `i`. */
  function BandOf(cuts: seq<int>, i: int): (k: nat)
    ensures k <= |cuts|
  {
    if cuts == [] then 0 else (if cuts[0] <= i then 1 else 0) + BandOf(cuts[1..], i)
  }

  predicate Ascending(cuts: seq<int>)
  {
    forall j, k :: 0 <= j < k < |cuts| ==> cuts[j] < cuts[k]
  }

  /** Under ascending cut points, `k` is the band of `i` exactly when `i` lies at or
      above cut `k - 1` and below cut `k`: every index lands in exactly one band. */
  lemma {:induction false} BandOfIsTheBand(cuts: seq<int>, i: int, k: nat)
    requires Ascending(cuts) && k <= |cuts|
    ensures BandOf(cuts, i) == k <==>
      (k == 0 || cuts[k - 1] <= i) && (k == |cuts| || i < cuts[k])
  {
    if cuts != [] {
      var rest := cuts[1..];
      assert Ascending(rest);
      if cuts[0] <= i {
        if k == 0 {
          BandOfIsTheBand(rest, i, 0);
        } else {
          BandOfIsTheBand(rest, i, k - 1);
        }
      } else {
        BandsBelowFirstCut(cuts, i);
        if k > 0 {
          assert cuts[0] <= cuts[k - 1];
        }
      }
    }
  }

  /** An index below every cut point is in band 0. */
  lemma {:induction false} BandsBelowFirstCut(cuts: seq<int>, i: int)
    requires Ascending(cuts) && cuts != [] && i < cuts[0]
    ensures BandOf(cuts, i) == 0
  {
    if |cuts| > 1 {
      assert Ascending(cuts[1..]) && cuts[0] < cuts[1];
      BandsBelowFirstCut(cuts[1..], i);
    }
  }

  /** Cut points and band colours of the three flag palettes. */
  const TransCuts: seq<int> := [205, 410, 615, 820]
  const TransBands: seq<Rgb> := [TransBlue, TransPink, White, TransPink, TransBlue]
  const EnbyCuts: seq<int> := [256, 512, 768]
  const EnbyBands: seq<Rgb> := [EnbyYellow, White, EnbyPurple, Black]
  const PanCuts: seq<int> := [342, 683]
  const PanBands: seq<Rgb> := [PanBlue, PanYellow, PanPink]

  /** The `trans` palette is its five-band table: blue, pink, white, pink, blue, cut
      at 205, 410, 615 and 820. */
  lemma TransIsBanded(i: int)
    ensures GetColor("trans", i) == Some(TransBands[BandOf(TransCuts, i)])
  {
    var k := if i < 205 then 0 else if i < 410 then 1 else if i < 615 then 2
      else if i < 820 then 3 else 4;
    BandOfIsTheBand(TransCuts, i, k);
  }

  /** The `enby` palette is its four-band table: yellow, white, purple, black, cut at
      256, 512 and 768. */
  lemma EnbyIsBanded(i: int)
    ensures GetColor("enby", i) == Some(EnbyBands[BandOf(EnbyCuts, i)])
  {
    var k := if i < 256 then 0 else if i < 512 then 1 else if i < 768 then 2 else 3;
    BandOfIsTheBand(EnbyCuts, i, k);
  }

  /** The `pan` palette is its three-band table: blue, yellow, pink, cut at 342 and 683. */
  lemma PanIsBanded(i: int)
    ensures GetColor("pan", i) == Some(PanBands[BandOf(PanCuts, i)])
  {
    var k := if i < 342 then 0 else if i < 683 then 1 else 2;
    BandOfIsTheBand(PanCuts, i, k);
  }

  /** The `trans` bands mirror about bin 512: bins `i` and `1024 - i` share a colour. */
  lemma TransIsSymmetric(i: int)
    ensures GetColor("trans", i) == GetColor("trans", 1024 - i)
  {
  }
}
