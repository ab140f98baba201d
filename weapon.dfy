// Weapon control (src/weapon.cpp): switch debouncing, the arming state
// machine with its throttle hysteresis, and the slew-limited ESC pulse width.
// The arming rules and the output are pure functions here; `WeaponControl`
// holds the module's private slew state and runs them on `g_state` in place.

module Weapon {
  import opened Types
  import opened State
  import Debounce
  import Slew

  // ----- Arming state machine -----

  /** What `weapon_update_arming` reads: debounced switches, link, error and the weapon throttle. */
  datatype ArmInputs = ArmInputs(armSwitch: bool, killActive: bool, linkOk: bool, error: SystemError, throttle: real)

  /** What it writes: the arming state and the throttle remembered for hysteresis. */
  datatype Arming = Arming(state: ArmState, lastArmThrottle: real)

  /** Any one of these disarms: arm switch off, kill switch on, link lost, an error recorded. */
  predicate ShouldDisarm(i: ArmInputs) {
    !i.armSwitch || i.killActive || !i.linkOk || i.error != ErrNone
  }

  /**
   * The throttle condition for arming: after a disarm at high throttle
   * (above the arm threshold) the throttle must drop below the lower re-arm
   * threshold; otherwise it must be at most the arm threshold.
   */
  predicate ThrottleOk(cfg: Config, lastArmThrottle: real, throttle: real) {
    if lastArmThrottle > cfg.armThrottle then throttle < cfg.rearmThrottle else throttle <= cfg.armThrottle
  }

  /** `weapon_update_arming`: one evaluation of the arming rules. */
  function ArmingStep(cfg: Config, a: Arming, i: ArmInputs): (r: Arming)
    requires cfg.Valid()
    ensures ShouldDisarm(i) ==> r == Arming(Disarmed, i.throttle)
    ensures r.state == Armed ==> !ShouldDisarm(i)
    ensures a.state == Armed && !ShouldDisarm(i) ==> r == a
    ensures a.state == Disarmed && !ShouldDisarm(i) ==>
      (r.state == Armed <==> ThrottleOk(cfg, a.lastArmThrottle, i.throttle))
    ensures a.state == Disarmed && r.state == Armed ==> r.lastArmThrottle == i.throttle <= cfg.armThrottle
    ensures r.state == Disarmed && !ShouldDisarm(i) ==> r == a
  {
    if ShouldDisarm(i) then
      Arming(Disarmed, i.throttle)
    else if a.state == Disarmed then
      if a.lastArmThrottle > cfg.armThrottle then
        if i.throttle < cfg.rearmThrottle then Arming(Armed, i.throttle) else a
      else if i.throttle <= cfg.armThrottle then Arming(Armed, i.throttle)
      else a
    else
      a
  }

  /** The arming state after a sequence of evaluations, oldest first. */
  function RunArming(cfg: Config, a: Arming, inputs: seq<ArmInputs>): (r: Arming)
    requires cfg.Valid()
    decreases |inputs|
  {
    if |inputs| == 0 then a
    else ArmingStep(cfg, RunArming(cfg, a, inputs[..|inputs| - 1]), inputs[|inputs| - 1])
  }

  /** While armed, the remembered throttle is at most the arm threshold. */
  ghost predicate ArmedThrottleBounded(cfg: Config, a: Arming) {
    a.state == Armed ==> a.lastArmThrottle <= cfg.armThrottle
  }

  lemma {:induction false} RunKeepsArmedThrottleBounded(cfg: Config, a: Arming, inputs: seq<ArmInputs>)
    requires cfg.Valid() && ArmedThrottleBounded(cfg, a)
    ensures ArmedThrottleBounded(cfg, RunArming(cfg, a, inputs))
    decreases |inputs|
  {
    if |inputs| > 0 {
      RunKeepsArmedThrottleBounded(cfg, a, inputs[..|inputs| - 1]);
    }
  }

  /**
   * From disarmed, the weapon ends up armed only if, at some evaluation, the
   * throttle was at most the arm threshold and from then on no disarm
   * condition held at any evaluation.
   */
  lemma {:induction false} ArmedOnlyAfterCleanArming(cfg: Config, a: Arming, inputs: seq<ArmInputs>)
    requires cfg.Valid() && a.state == Disarmed
    ensures RunArming(cfg, a, inputs).state == Armed ==>
      exists j | 0 <= j < |inputs| ::
        && inputs[j].throttle <= cfg.armThrottle
        && forall k | j <= k < |inputs| :: !ShouldDisarm(inputs[k])
    decreases |inputs|
  {
    var n := |inputs|;
    if n > 0 && RunArming(cfg, a, inputs).state == Armed {
      var prefix := inputs[..n - 1];
      var prev := RunArming(cfg, a, prefix);
      if prev.state == Disarmed {
        assert inputs[n - 1].throttle <= cfg.armThrottle;
        assert forall k | n - 1 <= k < n :: !ShouldDisarm(inputs[k]);
      } else {
        ArmedOnlyAfterCleanArming(cfg, a, prefix);
        var j :| 0 <= j < n - 1 && prefix[j].throttle <= cfg.armThrottle
                 && forall k | j <= k < n - 1 :: !ShouldDisarm(prefix[k]);
        assert inputs[j] == prefix[j];
        assert forall k | j <= k < n :: !ShouldDisarm(inputs[k]) by {
          forall k | j <= k < n ensures !ShouldDisarm(inputs[k]) {
            if k < n - 1 {
              assert inputs[k] == prefix[k];
            }
          }
        }
      }
    }
  }

  /**
   * Re-arm hysteresis: after a disarm with the throttle above the arm
   * threshold, the weapon stays disarmed, with the remembered throttle
   * unchanged, as long as the throttle stays at or above the re-arm
   * threshold, even with every other arming condition met.
   */
  lemma {:induction false} RearmHysteresis(cfg: Config, a: Arming, inputs: seq<ArmInputs>)
    requires cfg.Valid()
    requires a.state == Disarmed && a.lastArmThrottle > cfg.armThrottle
    requires forall k | 0 <= k < |inputs| :: !ShouldDisarm(inputs[k]) && inputs[k].throttle >= cfg.rearmThrottle
    ensures RunArming(cfg, a, inputs) == a
    decreases |inputs|
  {
    if |inputs| > 0 {
      var prefix := inputs[..|inputs| - 1];
      assert forall k | 0 <= k < |prefix| :: prefix[k] == inputs[k];
      RearmHysteresis(cfg, a, prefix);
    }
  }

  // ----- Output -----

  /**
   * `(uint16_t)(throttle * range_us)` for a throttle already clamped to
   * [0, 1]: the product truncated to whole microseconds.
   */
  function ScaleToSpan(t: real, span: nat): (r: nat)
    requires 0.0 <= t <= 1.0
    ensures r <= span && r as real <= t * span as real < r as real + 1.0
    ensures t == 0.0 ==> r == 0
    ensures t == 1.0 ==> r == span
  {
    FractionOfSpan(t, span as real);
    (t * span as real).Floor
  }

  /** A fraction in [0, 1] of a non-negative span stays within the span. */
  lemma FractionOfSpan(t: real, span: real)
    requires 0.0 <= t <= 1.0 && span >= 0.0
    ensures 0.0 <= t * span <= span
  {
  }

  /**
   * The pulse width `weapon_calculate_output` aims for: the minimum when
   * disarmed; when armed, the throttle clamped to [0, 1] and mapped
   * linearly onto [min, max], truncated to whole microseconds.
   */
  function WeaponTarget(cfg: Config, state: ArmState, throttle: real): (us: u16)
    requires cfg.Valid()
    ensures cfg.weaponMinUs <= us <= cfg.weaponMaxUs
    ensures state == Disarmed ==> us == cfg.weaponMinUs
    ensures state == Armed && throttle <= 0.0 ==> us == cfg.weaponMinUs
    ensures state == Armed && throttle >= 1.0 ==> us == cfg.weaponMaxUs
  {
    if state == Armed then
      var t := if throttle < 0.0 then 0.0 else if throttle > 1.0 then 1.0 else throttle;
      cfg.weaponMinUs + ScaleToSpan(t, cfg.weaponMaxUs - cfg.weaponMinUs)
    else
      cfg.weaponMinUs
  }

  /** The new stored pulse width: one slew-limited step from `prev` toward the target. */
  function WeaponOutput(cfg: Config, prev: u16, state: ArmState, throttle: real): (us: u16)
    requires cfg.Valid()
    ensures var target := WeaponTarget(cfg, state, throttle);
      prev < 0x8000 ==>
        && Slew.Distance(us, target) <= Slew.Distance(prev, target)
        && (Slew.Distance(prev, target) <= cfg.weaponSlewMax ==> us == target)
  {
    Slew.SlewStep(prev, WeaponTarget(cfg, state, throttle), cfg.weaponSlewMax)
  }

  /** The output stays in [min, max] once it is there, and moves at most one slew step per update. */
  lemma OutputStaysInRange(cfg: Config, prev: u16, state: ArmState, throttle: real)
    requires cfg.Valid() && cfg.weaponMinUs <= prev <= cfg.weaponMaxUs
    ensures var us := WeaponOutput(cfg, prev, state, throttle);
      && cfg.weaponMinUs <= us <= cfg.weaponMaxUs
      && -(cfg.weaponSlewMax as int) <= us - prev <= cfg.weaponSlewMax
  {
  }

  /** The stored pulse width after a sequence of updates, each with its arming state and throttle. */
  function OutputRun(cfg: Config, prev: u16, steps: seq<(ArmState, real)>): (us: u16)
    requires cfg.Valid()
    decreases |steps|
  {
    if |steps| == 0 then prev else OutputRun(cfg, WeaponOutput(cfg, prev, steps[0].0, steps[0].1), steps[1..])
  }

  /** While disarmed, the output is the slew limiter running toward the minimum. */
  lemma {:induction false} DisarmedRunIsSlewToMinimum(cfg: Config, prev: u16, steps: seq<(ArmState, real)>)
    requires cfg.Valid()
    requires forall k | 0 <= k < |steps| :: steps[k].0 == Disarmed
    ensures OutputRun(cfg, prev, steps) == Slew.SlewIterate(prev, cfg.weaponMinUs, cfg.weaponSlewMax, |steps|)
    decreases |steps|
  {
    if |steps| > 0 {
      var next := WeaponOutput(cfg, prev, steps[0].0, steps[0].1);
      assert next == Slew.SlewStep(prev, cfg.weaponMinUs, cfg.weaponSlewMax);
      DisarmedRunIsSlewToMinimum(cfg, next, steps[1..]);
    }
  }

  /**
   * After a disarm the ESC pulse falls to the minimum within
   * ceil((prev - min) / slew) updates and stays there.
   */
  lemma DisarmedOutputReachesMinimum(cfg: Config, prev: u16, steps: seq<(ArmState, real)>)
    requires cfg.Valid() && prev < 0x8000
    requires forall k | 0 <= k < |steps| :: steps[k].0 == Disarmed
    requires |steps| * cfg.weaponSlewMax >= Slew.Distance(prev, cfg.weaponMinUs)
    ensures OutputRun(cfg, prev, steps) == cfg.weaponMinUs
  {
    DisarmedRunIsSlewToMinimum(cfg, prev, steps);
    Slew.SlewReachesTarget(prev, cfg.weaponMinUs, cfg.weaponSlewMax, |steps|);
  }

  // ----- The module as it runs -----

  /** The arming fields of `g_state` as a value. */
  function ArmingOf(g: RuntimeState): (a: Arming)
    reads g
    ensures a.state == g.armState && a.lastArmThrottle == g.lastArmThrottle
  {
    Arming(g.armState, g.lastArmThrottle)
  }

  /** The arming inputs as `weapon_update_arming` reads them from `g_state`. */
  function ArmInputsOf(g: RuntimeState): (i: ArmInputs)
    reads g
    ensures i.armSwitch == g.armSwitchDebounced && i.killActive == g.killSwitchDebounced
    ensures i.linkOk == g.linkOk && i.error == g.error && i.throttle == g.weapon
  {
    ArmInputs(g.armSwitchDebounced, g.killSwitchDebounced, g.linkOk, g.error, g.weapon)
  }

  /** The module's private state: the previous ESC command of the slew limiter. */
  class WeaponControl {
    const cfg: Config
    var previousUs: u16

    constructor (cfg: Config)
      requires cfg.Valid()
      ensures this.cfg == cfg && previousUs == cfg.weaponMinUs
    {
      this.cfg := cfg;
      previousUs := cfg.weaponMinUs;
    }

    /** `weapon_init`: switches released with timers at now, disarmed, output at the minimum. */
    method Init(g: RuntimeState, now: u32)
      requires cfg.Valid()
      modifies this`previousUs
      modifies g`armSwitchStableMs, g`killSwitchStableMs, g`armSwitchDebounced, g`killSwitchDebounced
      modifies g`armState, g`lastArmThrottle, g`weaponUs
      ensures g.armSwitchStableMs == now && g.killSwitchStableMs == now
      ensures !g.armSwitchDebounced && !g.killSwitchDebounced
      ensures ArmingOf(g) == Arming(Disarmed, 0.0)
      ensures previousUs == cfg.weaponMinUs && g.weaponUs == cfg.weaponMinUs
    {
      g.armSwitchStableMs := now;
      g.killSwitchStableMs := now;
      g.armSwitchDebounced := false;
      g.killSwitchDebounced := false;
      g.armState := Disarmed;
      g.lastArmThrottle := 0.0;
      previousUs := cfg.weaponMinUs;
      g.weaponUs := cfg.weaponMinUs;
    }

    /** `weapon_update_switch_debounce`: both switches through the debouncer at the same time stamp. */
    method UpdateSwitchDebounce(g: RuntimeState, now: u32)
      modifies g`armSwitchDebounced, g`armSwitchStableMs, g`killSwitchDebounced, g`killSwitchStableMs
      ensures Debounce.Switch(g.armSwitchDebounced, g.armSwitchStableMs)
        == Debounce.Debounce(g.armSwitch, old(Debounce.Switch(g.armSwitchDebounced, g.armSwitchStableMs)), cfg.switchDebounceMs, now)
      ensures Debounce.Switch(g.killSwitchDebounced, g.killSwitchStableMs)
        == Debounce.Debounce(g.killSwitch, old(Debounce.Switch(g.killSwitchDebounced, g.killSwitchStableMs)), cfg.switchDebounceMs, now)
    {
      var arm := Debounce.Debounce(g.armSwitch, Debounce.Switch(g.armSwitchDebounced, g.armSwitchStableMs), cfg.switchDebounceMs, now);
      g.armSwitchDebounced, g.armSwitchStableMs := arm.debounced, arm.stableMs;
      var kill := Debounce.Debounce(g.killSwitch, Debounce.Switch(g.killSwitchDebounced, g.killSwitchStableMs), cfg.switchDebounceMs, now);
      g.killSwitchDebounced, g.killSwitchStableMs := kill.debounced, kill.stableMs;
    }

    /** `weapon_update_arming`, flag by flag as the firmware evaluates it. */
    method UpdateArming(g: RuntimeState)
      requires cfg.Valid()
      modifies g`armState, g`lastArmThrottle
      ensures ArmingOf(g) == ArmingStep(cfg, old(ArmingOf(g)), ArmInputsOf(g))
    {
      var armSwitch := g.armSwitchDebounced;
      var killActive := g.killSwitchDebounced;
      var linkOk := g.linkOk;
      var throttle := g.weapon;
      var error := g.error;

      var shouldDisarm := false;
      if !armSwitch { shouldDisarm := true; }
      if killActive { shouldDisarm := true; }
      if !linkOk { shouldDisarm := true; }
      if error != ErrNone { shouldDisarm := true; }
      if shouldDisarm {
        g.armState := Disarmed;
        g.lastArmThrottle := throttle;
        return;
      }

      if g.armState == Disarmed {
        var throttleOk := false;
        if g.lastArmThrottle > cfg.armThrottle {
          if throttle < cfg.rearmThrottle {
            throttleOk := true;
            g.lastArmThrottle := throttle;
          }
        } else {
          if throttle <= cfg.armThrottle {
            throttleOk := true;
          }
        }
        var canArm := true;
        if !armSwitch { canArm := false; }
        if killActive { canArm := false; }
        if !linkOk { canArm := false; }
        if error != ErrNone { canArm := false; }
        if !throttleOk { canArm := false; }
        if canArm {
          g.armState := Armed;
          g.lastArmThrottle := throttle;
        }
      }
    }

    /** `weapon_calculate_output`: the target, then the slew limiter in 16-bit arithmetic. */
    method CalculateOutput(g: RuntimeState) returns (us: u16)
      requires cfg.Valid()
      modifies this`previousUs
      ensures us == previousUs == WeaponOutput(cfg, old(previousUs), g.armState, g.weapon)
    {
      var targetUs := WeaponTarget(cfg, g.armState, g.weapon);
      var delta := Slew.ToInt16(Slew.ToInt16(targetUs) - Slew.ToInt16(previousUs));
      if delta > cfg.weaponSlewMax {
        previousUs := (previousUs + cfg.weaponSlewMax) % 0x1_0000;
      } else if delta < -(cfg.weaponSlewMax as int) {
        previousUs := (previousUs - cfg.weaponSlewMax) % 0x1_0000;
      } else {
        previousUs := targetUs;
      }
      us := previousUs;
    }

    /**
     * `weapon_update`: debounce, then arming on the freshly debounced
     * switches, then the slew-limited output written to `g_state`.
     */
    method Update(g: RuntimeState, now: u32)
      requires cfg.Valid()
      modifies this`previousUs
      modifies g`armSwitchDebounced, g`armSwitchStableMs, g`killSwitchDebounced, g`killSwitchStableMs
      modifies g`armState, g`lastArmThrottle, g`weaponUs
      ensures var arm := Debounce.Debounce(g.armSwitch, old(Debounce.Switch(g.armSwitchDebounced, g.armSwitchStableMs)), cfg.switchDebounceMs, now);
        var kill := Debounce.Debounce(g.killSwitch, old(Debounce.Switch(g.killSwitchDebounced, g.killSwitchStableMs)), cfg.switchDebounceMs, now);
        var a := ArmingStep(cfg, old(ArmingOf(g)), ArmInputs(arm.debounced, kill.debounced, g.linkOk, g.error, g.weapon));
        && Debounce.Switch(g.armSwitchDebounced, g.armSwitchStableMs) == arm
        && Debounce.Switch(g.killSwitchDebounced, g.killSwitchStableMs) == kill
        && ArmingOf(g) == a
        && g.weaponUs == previousUs == WeaponOutput(cfg, old(previousUs), a.state, g.weapon)
    {
      UpdateSwitchDebounce(g, now);
      UpdateArming(g);
      var us := CalculateOutput(g);
      g.weaponUs := us;
    }
  }
}
