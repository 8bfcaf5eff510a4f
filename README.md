# Audio visualizer: palette, per-tick reaction and input handlers

A Dafny model of the decision logic of `main.py` in the audio visualizer. The program
loads a track, computes a decibel spectrogram and a smoothed loudness envelope, and then,
twenty times a second, draws a shape that reacts to the envelope and a spectrogram trace
coloured by a palette. The model covers:

- **Palette selection and `get_color`** (modules `Palette`, `Hsv`, `Colors`): the palette
  name taken from the `COLOR` environment variable, lower-cased, defaulting to `rainbow`;
  the five palettes (`rainbow`, `white`, `trans`, `enby`, `pan`) and the `None` returned
  for any other name. The banded palettes are proved equal to an independent table of cut
  points and band colours; the rainbow palette follows `colorsys.hsv_to_rgb` of the Python
  standard library and `round`.
- **The per-tick reaction of `on_draw`** (module `Visual`): the shape flips on every tick
  whose envelope value exceeds 0.5 while the player plays, and both colours are replaced by
  random draws on every tick above 0.875 while it plays. The random draws are parameters.
- **Index arithmetic** (modules `Timing`, `PyNum`): the sample index
  `int(stream_position * sr)` and the spectrogram column `int(pos / lengthConversion) + 1`,
  with Python's truncating `int()` written out.
- **The spectrogram trace** (module `Trace`): the loop drawing 1024 segments between bins
  `i - 1` and `i`.
- **The window object** (module `Game`): class `Visualizer` holding the buffers, the shape
  and the two colours, and class `Player` holding the playing flag and the volume; the
  methods `OnDraw`, `OnMousePress`, `OnKeyPress` and `OnMouseScroll` update them in place.

The model follows the code as written, including these behaviours:

- the shape flips on every loud tick, not only when the envelope first rises above the
  threshold (no hysteresis) (`Visual.SustainedLoudPassage`), and the colours are redrawn on
  every tick above 0.875 while playing (`Visual.StepColours`);
- indices are not clamped: a sample index past the envelope, or a column past the last
  spectrogram frame, raises an index error. `OnDraw` returns `Failure(EnvelopeOverrun)` or
  `Failure(SpectrogramOverrun)` for these. The column of the final hop of the track is one
  past the last frame (`Timing.LastSampleOverrunsSpectrogram`). The column read happens
  after the shape and colours have been updated, so that failure comes with the new state;
- an unknown palette name does not fall back to a default: `get_color` returns `None`, so
  every trace segment then carries no colour. `OnDraw` still reports `Success` with those
  segments; what the drawing library does with a missing colour is not modelled;
- the volume step is applied as `max(0, min(1, v + 0.1 * scroll_y))`.

## Model

| member | source | states |
|---|---|---|
| PyNum.Trunc | main.py:104 | `int()` of a float truncates toward zero: the result is the integer at or below a non-negative argument, at or above a non-positive one, within 1 |
| PyNum.Round | main.py:26 | `round()` gives an integer within 1/2 of its argument, and the even one when the argument is half-way |
| PyNum.RoundUnique | main.py:26 | those two properties determine the rounded integer uniquely |
| PyNum.TruncOfQuotient | main.py:131 | truncating a non-negative quotient of integers is integer division |
| Hsv.HsvToRgb | main.py:26 | `colorsys.hsv_to_rgb` with hue at least 0 and saturation in 0..1: every channel lies between `v * (1 - s)` and `v`, one channel equals `v` and one equals `v * (1 - s)` |
| Hsv.Hsv2Rgb | main.py:25-26 | `hsv2rgb` gives components in 0..255 for hue at least 0 and saturation and value in 0..1 |
| Hsv.RainbowIsSaturatedHalfBright | main.py:30-31 | every rainbow colour of a bin index from 0 on has components in 0..128, one of them 128 and one 0 |
| Palette.Lower | main.py:20 | lower-casing keeps the length, lower-cases each character in place and leaves no upper-case letter |
| Palette.LowerIdempotent | main.py:20 | lower-casing a lower-cased name changes nothing |
| Palette.PaletteName | main.py:18-22 | the palette name is `rainbow` when `COLOR` is unset or empty, else its lower-cased value; it is never empty and has no upper-case letter |
| Palette.GetColor | main.py:29-57 | `get_color` returns no colour exactly for names outside the five palettes; each colour it returns is in 0..255 (for the rainbow, from bin 0 on) |
| Palette.PaletteNameSelects | main.py:18-57 | bins get a colour exactly when `COLOR` is unset, empty, or lower-cases to one of the five names |
| Palette.BandOfIsTheBand | main.py:34-57 | under ascending cut points an index lies in band `k` exactly when it is at or above cut `k - 1` and below cut `k`: each index lands in exactly one band |
| Palette.TransIsBanded | main.py:34-43 | the `trans` palette is blue, pink, white, pink, blue, with cuts at 205, 410, 615 and 820 |
| Palette.EnbyIsBanded | main.py:44-51 | the `enby` palette is yellow, white, purple, black, with cuts at 256, 512 and 768 |
| Palette.PanIsBanded | main.py:52-57 | the `pan` palette is blue, yellow, pink, with cuts at 342 and 683 |
| Palette.TransIsSymmetric | main.py:34-43 | the `trans` bands mirror about bin 512: bins `i` and `1024 - i` have the same colour |
| Timing.SampleIndex | main.py:104 | the sample index of a non-negative playback position is the largest integer not above `position * sr` |
| Timing.SampleIndexMonotone | main.py:104 | a later playback position never gives an earlier sample index |
| Timing.LengthConversion | main.py:88 | samples per frame times the frame count is the sample count |
| Timing.Column | main.py:131 | the column of a non-negative sample index is at least 1 |
| Timing.ColumnIsScaledSample | main.py:131 | the column equals `pos * frames / len(wav) + 1` in integer division |
| Timing.ColumnMonotone | main.py:131 | a later sample never gives an earlier column |
| Timing.ColumnBounds | main.py:131-132 | for a sample of the track the column lies in 1..frames, and is a valid frame index exactly when `pos * frames < len(wav) * (frames - 1)` |
| Timing.LastSampleOverrunsSpectrogram | main.py:131 | with at least as many samples as frames, the last sample's column is `frames`, one past the last frame |
| Visual.Flip | main.py:115-118 | flipping always changes the shape |
| Visual.Step | main.py:114-124 | a tick changes the shape exactly when the envelope value is above 0.5 and the player is playing |
| Visual.StepColours | main.py:120-124 | the colours change only on a tick above 0.875 while playing, then become the drawn ones; such a tick also flips the shape |
| Visual.PausedTickKeepsLook | main.py:114-124 | while the player is paused a tick changes nothing |
| Visual.TwoFlipsRestoreShape | main.py:114-118 | two flipping ticks restore the shape |
| Visual.StepKeepsGamut | main.py:120-124 | with draws in 0..255 the colours stay in 0..255 |
| Visual.RunShapeParity | main.py:114-118 | after any sequence of ticks the shape is the initial one exactly when an even number of them flipped it |
| Visual.SustainedLoudPassage | main.py:114-118 | `n` consecutive loud ticks while playing flip the shape `n` times, not once |
| Visual.QuietRunKeepsColours | main.py:120-124 | ticks none of which recolours leave both colours unchanged |
| Visual.RunKeepsGamut | main.py:120-124 | with every draw in 0..255 the colours stay in 0..255 over any sequence of ticks |
| Input.ScrollVolume | main.py:164-169 | the new volume lies in 0..1: it is `v + 0.1 * scroll_y` when that is in 0..1, else 1 above and 0 below |
| Input.ScrollVolumeMonotone | main.py:164-169 | scrolling further up never gives a lower volume |
| Input.ScrollVolumeCaps | main.py:166-168 | volume 0.9 scrolled up two units becomes 1.0 |
| Trace.LevelMonotone | main.py:131-132 | a louder bin never has a lower segment end on a window of non-negative height |
| Trace.Segments | main.py:128-133 | the trace is 1024 segments from bin `i - 1` to bin `i`, each end at its bin's level in the column, coloured by `get_color(i)`; consecutive segments join, the polyline spans `width / 1025` to `width`, and each segment goes rightward in a window of positive width |
| Game.Player.constructor | main.py:94 | the player starts playing at the given volume |
| Game.Visualizer.constructor | main.py:18-94 | the window starts with a circle, a red circle colour and a lime rectangle colour, the palette named by `COLOR` after normalisation, the samples-per-frame factor fixed, and playing at volume 0.5 |
| Game.Visualizer.OnDraw | main.py:100-133 | a sample index past the envelope fails and changes nothing; otherwise the state takes one `Step` on the envelope value and the playing flag, and then either the column overruns the spectrogram and the draw fails, or it yields the 1024 trace segments of that column |
| Game.Visualizer.OnMousePress | main.py:144-154 | the left button replaces both colours with the draws; the middle and right buttons, and any other, change nothing |
| Game.Visualizer.OnKeyPress | main.py:156-162 | key 112 toggles the playing flag; other keys leave it; the volume is unchanged |
| Game.Visualizer.OnMouseScroll | main.py:164-170 | the player's volume becomes `ScrollVolume` of the old one; the playing flag is unchanged |

## Left out

- Loading the track and its analysis: `librosa.load`, the short-time Fourier transform, the
  conversion to decibels and the Savitzky-Golay smoothing of the envelope are foreign
  numeric code over floats. The envelope and the decibel spectrogram are constructor
  parameters; the spectrogram has 1025 rows (the bin count of the default 2048-point
  transform) of equal length, and the envelope has one value per sample of the track.
- Floating point: all arithmetic is on exact reals. Rounding of intermediate float results
  (in `pos / lengthConversion`, the trace heights and the volume sum) is not modelled.
- `random.randint(0, 255)`: the six drawn components are parameters, required to be in
  0..255.
- `Palette.Lower`: lower-cases ASCII letters only; Python's Unicode `str.lower()` also maps
  other letters. Of those, only U+212A (KELVIN SIGN, to `k`) and U+0130 (to `i` followed by
  the combining dot U+0307) reach ASCII, so no non-ASCII value lower-cases to one of the five
  names and the palette selected is the same; the model's name differs from Python's only
  for non-ASCII letters.
- Drawing: the background, the progress bar, the reactive circle and rectangle (their sizes
  and positions) and the line width are calls to the drawing library and are not modelled;
  the trace is modelled as the list of segments it draws. A segment with no colour (unknown
  palette name) is passed on as such; the drawing library's handling of it is left out.
- The window, the event loop, the sound playback itself, `get_stream_position` (the playback
  position is a parameter, at least 0), `is_complete` with `stop_sound` and `close`, and
  `on_close`.
- The command-line file name, the timing and diagnostic `print`s, and `setup`, which does
  nothing.
- A zero-length track (division by zero when the column is computed) and a spectrogram with
  no frames: the constructor requires a non-empty envelope and spectrogram.
