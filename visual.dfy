/** The per-tick reaction of `on_draw` to the envelope: the shape flips on loud ticks and
    both colours are redrawn on very loud ones, only while the player is playing. */
module Visual {
  import opened Colors

  /** The value of `self.shape`: "circ" or "rect", the only strings ever assigned to it. */
  datatype Shape = Circ | Rect

  /** "rect" becomes "circ", anything else becomes "rect". */
  function Flip(s: Shape): (t: Shape)
    ensures t != s
  {
    if s == Rect then Circ else Rect
  }

  /** Envelope levels above which a tick flips the shape, and redraws the colours. */
  const ShapeThreshold: real := 0.5
  const ColorThreshold: real := 0.875

  /** The visual state: the shape and the colours of the circle and of the rectangle. */
  datatype Look = Look(shape: Shape, circColor: Rgb, rectColor: Rgb) {
    predicate InGamut() {
      circColor.InGamut() && rectColor.InGamut()
    }
  }

  /** The state after `__init__`: a red circle, a lime rectangle colour. */
  const Initial := Look(Circ, Red, Lime)

  /** What one tick sees: the envelope value at the current sample, whether the player
      is playing, and the six random components it would draw (circle colour first). */
  datatype Tick = Tick(value: real, playing: bool, circDraw: Rgb, rectDraw: Rgb)

  predicate Flips(t: Tick)
  {
    t.value > ShapeThreshold && t.playing
  }

  predicate Recolours(t: Tick)
  {
    t.value > ColorThreshold && t.playing
  }

  /** The state change of one `on_draw` call. */
  function Step(l: Look, t: Tick): (r: Look)
    ensures r.shape != l.shape <==> Flips(t)
  {
    var shape := if Flips(t) then Flip(l.shape) else l.shape;
    if Recolours(t) then Look(shape, t.circDraw, t.rectDraw) else l.(shape := shape)
  }

  /** The colours change only on a tick above the colour threshold while playing, and
      then become the drawn ones; a recolouring tick always flips the shape too. */
  lemma StepColours(l: Look, t: Tick)
    ensures !Recolours(t) ==> Step(l, t).circColor == l.circColor && Step(l, t).rectColor == l.rectColor
    ensures Recolours(t) ==> Step(l, t).circColor == t.circDraw && Step(l, t).rectColor == t.rectDraw
    ensures Recolours(t) ==> Flips(t)
  {
  }

  /** While paused nothing changes, whatever the envelope says. */
  lemma PausedTickKeepsLook(l: Look, t: Tick)
    requires !t.playing
    ensures Step(l, t) == l
  {
  }

  /** Two flipping ticks in a row restore the shape. */
  lemma TwoFlipsRestoreShape(l: Look, t1: Tick, t2: Tick)
    requires Flips(t1) && Flips(t2)
    ensures Step(Step(l, t1), t2).shape == l.shape
  {
  }

  /** Colours drawn in 0..255 keep the state's colours in 0..255. */
  lemma StepKeepsGamut(l: Look, t: Tick)
    requires l.InGamut() && t.circDraw.InGamut() && t.rectDraw.InGamut()
    ensures Step(l, t).InGamut()
  {
  }

  /** The state after a sequence of ticks. */
  function Run(l: Look, ticks: seq<Tick>): Look
    decreases |ticks|
  {
    if ticks == [] then l else Run(Step(l, ticks[0]), ticks[1..])
  }

  /** How many of the ticks flip the shape. */
  function FlipCount(ticks: seq<Tick>): (n: nat)
    ensures n <= |ticks|
  {
    if ticks == [] then 0 else (if Flips(ticks[0]) then 1 else 0) + FlipCount(ticks[1..])
  }

  /** After any run of ticks the shape is the initial one flipped once per flipping
      tick: it is back to where it started exactly when that count is even. */
  lemma {:induction false} RunShapeParity(l: Look, ticks: seq<Tick>)
    ensures Run(l, ticks).shape == if FlipCount(ticks) % 2 == 0 then l.shape else Flip(l.shape)
    decreases |ticks|
  {
    if ticks != [] {
      RunShapeParity(Step(l, ticks[0]), ticks[1..]);
    }
  }

  /** The shape flips on every tick of a sustained loud passage, not only on the first:
      `n` loud ticks while playing flip it `n` times. */
  lemma {:induction false} SustainedLoudPassage(l: Look, ticks: seq<Tick>)
    requires forall k :: 0 <= k < |ticks| ==> Flips(ticks[k])
    ensures FlipCount(ticks) == |ticks|
    ensures Run(l, ticks).shape == if |ticks| % 2 == 0 then l.shape else Flip(l.shape)
  {
    AllFlip(ticks);
    RunShapeParity(l, ticks);
  }

  lemma {:induction false} AllFlip(ticks: seq<Tick>)
    requires forall k :: 0 <= k < |ticks| ==> Flips(ticks[k])
    ensures FlipCount(ticks) == |ticks|
  {
    if ticks != [] {
      AllFlip(ticks[1..]);
    }
  }

  /** A run with no recolouring tick leaves both colours as they were. */
  lemma {:induction false} QuietRunKeepsColours(l: Look, ticks: seq<Tick>)
    requires forall k :: 0 <= k < |ticks| ==> !Recolours(ticks[k])
    ensures Run(l, ticks).circColor == l.circColor && Run(l, ticks).rectColor == l.rectColor
    decreases |ticks|
  {
    if ticks != [] {
      QuietRunKeepsColours(Step(l, ticks[0]), ticks[1..]);
    }
  }

  /** With every draw in 0..255, a run keeps the colours in 0..255. */
  lemma {:induction false} RunKeepsGamut(l: Look, ticks: seq<Tick>)
    requires l.InGamut()
    requires forall k :: 0 <= k < |ticks| ==> ticks[k].circDraw.InGamut() && ticks[k].rectDraw.InGamut()
    ensures Run(l, ticks).InGamut()
    decreases |ticks|
  {
    if ticks != [] {
      StepKeepsGamut(l, ticks[0]);
      RunKeepsGamut(Step(l, ticks[0]), ticks[1..]);
    }
  }
}
