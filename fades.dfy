/** The per-frame volume fade shared by the tile-sound and stream players. */
module Fades {
  function MaxReal(a: real, b: real): real { if a >= b then a else b }

  function MinReal(a: real, b: real): real { if a <= b then a else b }

  /** One frame of fading: toward the target by at most `step`. */
  function Fade(current: real, target: real, step: real): real {
    if current < target then MinReal(current + step, target)
    else if current > target then MaxReal(current - step, target)
    else current
  }

  /** The volume moves toward the target by at most one step, never overshoots it, and lands on it when within a step. */
  lemma FadeSpec(current: real, target: real, step: real)
    requires 0.0 <= step
    ensures current <= target ==> current <= Fade(current, target, step) <= target
    ensures current >= target ==> target <= Fade(current, target, step) <= current
    ensures -step <= Fade(current, target, step) - current <= step
    ensures (current - target <= step && target - current <= step) ==> Fade(current, target, step) == target
  {
  }
}
