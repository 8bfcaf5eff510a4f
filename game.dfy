/** The window class `MyGame`: the analysis buffers it holds, its visual state, the
    sound player it drives, and its draw and input handlers. */
module Game {
  import opened Wrappers
  import opened Colors
  import opened Timing
  import opened Visual
  import opened Input
  import Trace
  import Palette

  /** The sound player handle: whether it is playing and at what volume. */
  class Player {
    var playing: bool
    var volume: real

    /** `self.music.play(volume=...)`: playback starts at once. */
    constructor (volume: real)
      ensures playing && this.volume == volume
    {
      playing := true;
      this.volume := volume;
    }
  }

  /** The index errors `on_draw` can raise: the sample index past the envelope
      (`self.smoothWave[pos]`), or the column past the spectrogram
      (`self.fourierDb[i - 1][...]`). */
  datatype DrawError = EnvelopeOverrun | SpectrogramOverrun

  class Visualizer {
    const sampleRate: nat
    /** `self.smoothWave`: the smoothed envelope, one value per sample of the track. */
    const smoothWave: seq<real>
    /** `self.fourierDb`: one row per frequency bin, one column per frame. */
    const fourierDb: seq<seq<real>>
    /** The palette name the trace is coloured with, as normalised from `COLOR`. */
    const palette: string
    const lengthConversion: real
    const player: Player

    var shape: Shape
    var circColor: Rgb
    var rectColor: Rgb

    /** The number of spectrogram frames, `len(self.fourierDb[0])`. */
    function Frames(): nat
    {
      if fourierDb == [] then 0 else |fourierDb[0]|
    }

    ghost predicate Valid()
      reads this, player
    {
      && 0 < |smoothWave|
      && |fourierDb| == Trace.Bins && 0 < Frames()
      && (forall b :: 0 <= b < |fourierDb| ==> |fourierDb[b]| == Frames())
      && lengthConversion == LengthConversion(|smoothWave|, Frames())
      && circColor.InGamut() && rectColor.InGamut()
      && 0.0 <= player.volume <= 1.0
    }

    /** The visual state as one value. */
    function Current(): Look
      reads this
    {
      Look(shape, circColor, rectColor)
    }

    /** `__init__` after the analysis: a circle in red, a rectangle colour of lime, the
        palette named by the value of `COLOR`, and the track playing at half volume. */
    constructor (sampleRate: nat, smoothWave: seq<real>, fourierDb: seq<seq<real>>,
                 colorEnv: Option<string>)
      requires 0 < |smoothWave|
      requires |fourierDb| == Trace.Bins && 0 < |fourierDb[0]|
      requires forall b :: 0 <= b < |fourierDb| ==> |fourierDb[b]| == |fourierDb[0]|
      ensures Valid() && fresh(player)
      ensures this.sampleRate == sampleRate && this.smoothWave == smoothWave
      ensures this.fourierDb == fourierDb && palette == Palette.PaletteName(colorEnv)
      ensures Current() == Initial
      ensures player.playing && player.volume == 0.5
    {
      this.sampleRate := sampleRate;
      this.smoothWave := smoothWave;
      this.fourierDb := fourierDb;
      palette := Palette.PaletteName(colorEnv);
      lengthConversion := LengthConversion(|smoothWave|, |fourierDb[0]|);
      player := new Player(0.5);
      shape := Circ;
      circColor := Red;
      rectColor := Lime;
    }

    /** `on_draw` at playback position `position` (seconds) in a window of the given
        size; `circDraw` and `rectDraw` are the components `random.randint(0, 255)`
        would draw. An envelope overrun raises before anything changes; otherwise the
        state takes one `Step`, and then the trace is drawn from the mapped column, or
        the column overruns the spectrogram. */
    method OnDraw(position: real, width: int, height: int, circDraw: Rgb, rectDraw: Rgb)
      returns (frame: Result<seq<Trace.Segment>, DrawError>)
      requires Valid() && 0.0 <= position
      requires circDraw.InGamut() && rectDraw.InGamut()
      modifies this
      ensures Valid()
      ensures var pos := SampleIndex(position, sampleRate);
        if pos >= |smoothWave| then
          frame == Failure(EnvelopeOverrun) && Current() == old(Current())
        else
          && Current() == Step(old(Current()), Tick(smoothWave[pos], player.playing, circDraw, rectDraw))
          && var col := Column(pos, lengthConversion);
             if col >= Frames() then frame == Failure(SpectrogramOverrun)
             else
               && frame.Success? && |frame.value| == Trace.Bins - 1
               && forall k :: 0 <= k < Trace.Bins - 1 ==>
                    frame.value[k] == Trace.SegmentAt(fourierDb, col, k + 1, width, height, palette)
    {
      var pos := SampleIndex(position, sampleRate);
      if pos >= |smoothWave| {
        return Failure(EnvelopeOverrun);
      }
      var value := smoothWave[pos];
      if value > ShapeThreshold && player.playing {
        if shape == Rect {
          shape := Circ;
        } else {
          shape := Rect;
        }
      }
      if value > ColorThreshold && player.playing {
        circColor := circDraw;
        rectColor := rectDraw;
      }
      var col := Column(pos, lengthConversion);
      if col >= Frames() {
        return Failure(SpectrogramOverrun);
      }
      var segs := Trace.Segments(fourierDb, col, width, height, palette);
      frame := Success(segs);
    }

    /** `on_mouse_press`: the left button redraws both colours; the middle and right
        buttons, and any other, change nothing. */
    method OnMousePress(button: int, circDraw: Rgb, rectDraw: Rgb)
      requires Valid() && circDraw.InGamut() && rectDraw.InGamut()
      modifies this
      ensures Valid()
      ensures Current() == if button == LeftButton then old(Current()).(circColor := circDraw, rectColor := rectDraw)
                           else old(Current())
      ensures button == MiddleButton || button == RightButton ==> Current() == old(Current())
    {
      if button == LeftButton {
        circColor := circDraw;
        rectColor := rectDraw;
      }
    }

    /** `on_key_press`: the 'p' key pauses a playing player and resumes a paused one. */
    method OnKeyPress(symbol: int)
      requires Valid()
      modifies player
      ensures Valid()
      ensures player.playing == if symbol == PauseKey then !old(player.playing) else old(player.playing)
      ensures player.volume == old(player.volume)
    {
      if symbol == PauseKey {
        if player.playing {
          player.playing := false;
        } else {
          player.playing := true;
        }
      }
    }

    /** `on_mouse_scroll`: the volume moves by a tenth per scroll unit, kept in 0..1. */
    method OnMouseScroll(scrollY: int)
      requires Valid()
      modifies player
      ensures Valid()
      ensures player.volume == ScrollVolume(old(player.volume), scrollY)
      ensures player.playing == old(player.playing)
    {
      var volume := player.volume;
      volume := volume + VolumeStep * scrollY as real;
      volume := if 1.0 < volume then 1.0 else volume;
      volume := if volume < 0.0 then 0.0 else volume;
      player.volume := volume;
    }
  }
}
