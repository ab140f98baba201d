// The slew-rate limiter that the weapon ESC output (src/weapon.cpp) and the
// self-righting servo output (src/servo.cpp) both apply to their stored pulse
// width: the difference to the target is taken through int16_t casts, and the
// stored uint16_t value either moves by a full step or lands on the target.

module Slew {
  import opened Types

  /** Two's-complement reinterpretation of an integer as int16_t. */
  function ToInt16(x: int): (r: i16)
    ensures -0x8000 <= x < 0x8000 ==> r == x
    ensures (r - x) % 0x1_0000 == 0
  {
    (x + 0x8000) % 0x1_0000 - 0x8000
  }

  /**
   * One limiter step from the stored pulse width `prev` toward `target`,
   * exactly as the firmware computes it in 16-bit arithmetic. When both
   * pulse widths are below 2^15 (every configured pulse width is), the casts
   * are exact and the step is a true slew limit.
   */
  function SlewStep(prev: u16, target: u16, maxStep: u16): (r: u16)
    ensures prev < 0x8000 && target < 0x8000 ==>
      && (prev <= target ==> prev <= r <= target)
      && (target <= prev ==> target <= r <= prev)
      && -(maxStep as int) <= r - prev <= maxStep
      && (-(maxStep as int) <= target - prev <= maxStep ==> r == target)
      && (r != target ==> r - prev == maxStep || prev - r == maxStep)
  {
    var delta := ToInt16(ToInt16(target) - ToInt16(prev));
    if delta > maxStep as int then (prev + maxStep) % 0x1_0000
    else if delta < -(maxStep as int) then (prev - maxStep) % 0x1_0000
    else target
  }

  /** The stored value after `n` limiter steps toward a fixed target. */
  function SlewIterate(prev: u16, target: u16, maxStep: u16, n: nat): u16
    decreases n
  {
    if n == 0 then prev else SlewIterate(SlewStep(prev, target, maxStep), target, maxStep, n - 1)
  }

  /** |a - b|. */
  function Distance(a: int, b: int): nat {
    if a <= b then b - a else a - b
  }

  /**
   * A fixed target is reached, and then held, after at most
   * ceil(|target - prev| / maxStep) steps.
   */
  lemma {:induction false} SlewReachesTarget(prev: u16, target: u16, maxStep: u16, n: nat)
    requires prev < 0x8000 && target < 0x8000 && maxStep > 0
    requires n * maxStep >= Distance(prev, target)
    ensures SlewIterate(prev, target, maxStep, n) == target
    decreases n
  {
    if n == 0 {
      assert prev == target;
    } else {
      var next := SlewStep(prev, target, maxStep);
      assert Distance(next, target) <= Distance(prev, target) - maxStep || next == target;
      if next == target {
        SlewStaysAtTarget(target, maxStep, n - 1);
      } else {
        assert (n - 1) * maxStep == n * maxStep - maxStep;
        SlewReachesTarget(next, target, maxStep, n - 1);
      }
    }
  }

  /** Once on the target, the limiter stays there. */
  lemma {:induction false} SlewStaysAtTarget(target: u16, maxStep: u16, n: nat)
    requires target < 0x8000
    ensures SlewIterate(target, target, maxStep, n) == target
    decreases n
  {
    if n > 0 {
      assert SlewStep(target, target, maxStep) == target;
      SlewStaysAtTarget(target, maxStep, n - 1);
    }
  }
}
