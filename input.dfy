/** The constants and arithmetic of the input handlers. */
module Input {

  /** Mouse button codes of the windowing library, and the play/pause key ('p'). */
  const LeftButton := 1
  const MiddleButton := 2
  const RightButton := 4
  const PauseKey := 112

  /** Volume step per scroll unit. */
  const VolumeStep: real := 0.1

  /** The volume after `on_mouse_scroll`: nudged by a tenth per scroll unit, then capped
      at 1 and floored at 0. */
  function ScrollVolume(volume: real, scrollY: int): (v: real)
    ensures 0.0 <= v <= 1.0
    ensures var nudged := volume + VolumeStep * scrollY as real;
      && (0.0 <= nudged <= 1.0 ==> v == nudged)
      && (1.0 < nudged ==> v == 1.0)
      && (nudged < 0.0 ==> v == 0.0)
  {
    var nudged := volume + VolumeStep * scrollY as real;
    var capped := if 1.0 < nudged then 1.0 else nudged;
    if capped < 0.0 then 0.0 else capped
  }

  /** Scrolling further up never gives a lower volume. */
  lemma ScrollVolumeMonotone(volume: real, y1: int, y2: int)
    requires y1 <= y2
    ensures ScrollVolume(volume, y1) <= ScrollVolume(volume, y2)
  {
  }

  /** A volume of 0.9 scrolled up two units is capped at 1, not 1.1. */
  lemma ScrollVolumeCaps()
    ensures ScrollVolume(0.9, 2) == 1.0
  {
  }
}
