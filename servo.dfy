// Self-righting servo (src/servo.cpp): the target is the extended endpoint
// while the self-right button is pressed with the link up and the kill
// switch off, and neutral otherwise; the stored pulse width follows it
// through the shared slew limiter and is then clamped to the endpoints.

module Servo {
  import opened Types
  import opened State
  import Slew

  /** What `servo_calculate_output` reads from `g_state`: the raw button, link and kill switch. */
  datatype ServoInputs = ServoInputs(selfright: bool, linkOk: bool, killSwitch: bool)

  /** Extended only while the button is pressed, the link is up and the kill switch is off. */
  function ServoTarget(cfg: Config, i: ServoInputs): (us: u16)
    ensures us == cfg.servoExtendUs || us == cfg.servoNeutralUs
    ensures i.selfright && i.linkOk && !i.killSwitch ==> us == cfg.servoExtendUs
    ensures !(i.selfright && i.linkOk && !i.killSwitch) ==> us == cfg.servoNeutralUs
  {
    if i.selfright && i.linkOk && !i.killSwitch then cfg.servoExtendUs else cfg.servoNeutralUs
  }

  /** The endpoint clamp applied after the slew step. */
  function ClampToEndpoints(cfg: Config, us: u16): (r: u16)
    requires cfg.Valid()
    ensures cfg.servoRetractUs <= r <= cfg.servoExtendUs
    ensures cfg.servoRetractUs <= us <= cfg.servoExtendUs ==> r == us
  {
    if us < cfg.servoRetractUs then cfg.servoRetractUs
    else if us > cfg.servoExtendUs then cfg.servoExtendUs
    else us
  }

  /** The new stored pulse width: one slew step toward the target, clamped to the endpoints. */
  function ServoOutput(cfg: Config, prev: u16, i: ServoInputs): (us: u16)
    requires cfg.Valid()
    ensures cfg.servoRetractUs <= us <= cfg.servoExtendUs
  {
    ClampToEndpoints(cfg, Slew.SlewStep(prev, ServoTarget(cfg, i), cfg.servoSlewMax))
  }

  /**
   * From a pulse width within the endpoints the clamp never engages: the
   * output is exactly the slew step, so it moves toward the target by at
   * most one step per update.
   */
  lemma OutputIsSlewStep(cfg: Config, prev: u16, i: ServoInputs)
    requires cfg.Valid() && cfg.servoRetractUs <= prev <= cfg.servoExtendUs
    ensures ServoOutput(cfg, prev, i) == Slew.SlewStep(prev, ServoTarget(cfg, i), cfg.servoSlewMax)
    ensures -(cfg.servoSlewMax as int) <= ServoOutput(cfg, prev, i) - prev <= cfg.servoSlewMax
  {
  }

  /** The stored pulse width after a sequence of updates, oldest first. */
  function ServoRun(cfg: Config, prev: u16, inputs: seq<ServoInputs>): (us: u16)
    requires cfg.Valid()
    decreases |inputs|
  {
    if |inputs| == 0 then prev else ServoRun(cfg, ServoOutput(cfg, prev, inputs[0]), inputs[1..])
  }

  /** While the target stays the same, the servo runs the slew limiter toward it. */
  lemma {:induction false} FixedTargetRunIsSlew(cfg: Config, prev: u16, inputs: seq<ServoInputs>, target: u16)
    requires cfg.Valid() && cfg.servoRetractUs <= prev <= cfg.servoExtendUs
    requires forall k | 0 <= k < |inputs| :: ServoTarget(cfg, inputs[k]) == target
    ensures ServoRun(cfg, prev, inputs) == Slew.SlewIterate(prev, target, cfg.servoSlewMax, |inputs|)
    decreases |inputs|
  {
    if |inputs| > 0 {
      OutputIsSlewStep(cfg, prev, inputs[0]);
      FixedTargetRunIsSlew(cfg, ServoOutput(cfg, prev, inputs[0]), inputs[1..], target);
    }
  }

  /**
   * Failsafe: once the button is released, the link is lost or the kill
   * switch is on, the servo is back at neutral within
   * ceil(|prev - neutral| / slew) updates and stays there as long as that holds.
   */
  lemma ReturnsToNeutral(cfg: Config, prev: u16, inputs: seq<ServoInputs>)
    requires cfg.Valid() && cfg.servoRetractUs <= prev <= cfg.servoExtendUs
    requires forall k | 0 <= k < |inputs| :: !(inputs[k].selfright && inputs[k].linkOk && !inputs[k].killSwitch)
    requires |inputs| * cfg.servoSlewMax >= Slew.Distance(prev, cfg.servoNeutralUs)
    ensures ServoRun(cfg, prev, inputs) == cfg.servoNeutralUs
  {
    FixedTargetRunIsSlew(cfg, prev, inputs, cfg.servoNeutralUs);
    Slew.SlewReachesTarget(prev, cfg.servoNeutralUs, cfg.servoSlewMax, |inputs|);
  }

  /** Holding the button with a healthy link and the kill switch off extends the servo fully. */
  lemma ReachesExtended(cfg: Config, prev: u16, inputs: seq<ServoInputs>)
    requires cfg.Valid() && cfg.servoRetractUs <= prev <= cfg.servoExtendUs
    requires forall k | 0 <= k < |inputs| :: inputs[k].selfright && inputs[k].linkOk && !inputs[k].killSwitch
    requires |inputs| * cfg.servoSlewMax >= Slew.Distance(prev, cfg.servoExtendUs)
    ensures ServoRun(cfg, prev, inputs) == cfg.servoExtendUs
  {
    FixedTargetRunIsSlew(cfg, prev, inputs, cfg.servoExtendUs);
    Slew.SlewReachesTarget(prev, cfg.servoExtendUs, cfg.servoSlewMax, |inputs|);
  }

  /** The servo inputs as `servo_calculate_output` reads them from `g_state`. */
  function ServoInputsOf(g: RuntimeState): (i: ServoInputs)
    reads g
    ensures i.selfright == g.selfrightSwitch && i.linkOk == g.linkOk && i.killSwitch == g.killSwitch
  {
    ServoInputs(g.selfrightSwitch, g.linkOk, g.killSwitch)
  }

  /** The module's private state: the previous servo command of the slew limiter. */
  class ServoControl {
    const cfg: Config
    var previousUs: u16

    constructor (cfg: Config)
      ensures this.cfg == cfg && previousUs == cfg.servoNeutralUs
    {
      this.cfg := cfg;
      previousUs := cfg.servoNeutralUs;
    }

    /** `servo_init`: stored and commanded pulse width at neutral. */
    method Init(g: RuntimeState)
      modifies this`previousUs, g`servoUs
      ensures previousUs == cfg.servoNeutralUs && g.servoUs == cfg.servoNeutralUs
    {
      previousUs := cfg.servoNeutralUs;
      g.servoUs := cfg.servoNeutralUs;
    }

    /** `servo_calculate_output`: target, 16-bit slew step, endpoint clamp. */
    method CalculateOutput(g: RuntimeState) returns (us: u16)
      requires cfg.Valid()
      modifies this`previousUs
      ensures us == previousUs == ServoOutput(cfg, old(previousUs), ServoInputsOf(g))
    {
      var targetUs := cfg.servoNeutralUs;
      var buttonActive := g.selfrightSwitch;
      var linkOk := g.linkOk;
      var killActive := g.killSwitch;
      if buttonActive && linkOk && !killActive {
        targetUs := cfg.servoExtendUs;
      } else {
        targetUs := cfg.servoNeutralUs;
      }

      assert targetUs == ServoTarget(cfg, ServoInputsOf(g));
      ghost var stepped := Slew.SlewStep(previousUs, targetUs, cfg.servoSlewMax);
      ghost var out := ClampToEndpoints(cfg, stepped);
      assert out == ServoOutput(cfg, previousUs, ServoInputsOf(g));
      var delta := Slew.ToInt16(Slew.ToInt16(targetUs) - Slew.ToInt16(previousUs));
      if delta > cfg.servoSlewMax {
        previousUs := (previousUs + cfg.servoSlewMax) % 0x1_0000;
      } else if delta < -(cfg.servoSlewMax as int) {
        previousUs := (previousUs - cfg.servoSlewMax) % 0x1_0000;
      } else {
        previousUs := targetUs;
      }
      assert previousUs == stepped;

      if previousUs < cfg.servoRetractUs {
        previousUs := cfg.servoRetractUs;
      } else if previousUs > cfg.servoExtendUs {
        previousUs := cfg.servoExtendUs;
      }
      us := previousUs;
      assert us == out;
    }

    /** `servo_update`: the new pulse width written to `g_state`. */
    method Update(g: RuntimeState)
      requires cfg.Valid()
      modifies this`previousUs, g`servoUs
      ensures g.servoUs == previousUs == ServoOutput(cfg, old(previousUs), ServoInputsOf(g))
      ensures cfg.servoRetractUs <= g.servoUs <= cfg.servoExtendUs
    {
      var us := CalculateOutput(g);
      g.servoUs := us;
    }
  }
}
