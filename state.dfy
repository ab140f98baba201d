// The firmware's single global state record `g_state` (include/state.h,
// src/state.cpp). Every module reads and writes its fields in place, so it is
// a class; the nested input/safety/output/diagnostics groups are flattened
// into one field list. Stick and throttle values are exact reals.

module State {
  import opened Types

  class RuntimeState {
    // Timing
    var loopStartUs: u32
    var loopDurationUs: u32

    // Input
    var roll: real
    var pitch: real
    var yaw: real
    var throttle: real
    var weapon: real
    var armSwitch: bool
    var killSwitch: bool
    var selfrightSwitch: bool
    var lastPacketMs: u32
    var linkOk: bool

    // Safety
    var armState: ArmState
    var error: SystemError
    var armSwitchDebounced: bool
    var killSwitchDebounced: bool
    var armSwitchStableMs: u32
    var killSwitchStableMs: u32
    var lastArmThrottle: real

    // Outputs
    var motorFlPwm: i16
    var motorFrPwm: i16
    var motorRlPwm: i16
    var motorRrPwm: i16
    var weaponUs: u16
    var servoUs: u16

    // Diagnostics
    var ledLastUpdateMs: u32
    var ledState: bool
    var errorBlinkCount: u8
    var errorBlinkPhase: u8

    /** The boot-time contents of `g_state`: everything neutral, disarmed, no error, link down. */
    constructor (cfg: Config)
      ensures loopStartUs == 0 && loopDurationUs == 0
      ensures roll == 0.0 && pitch == 0.0 && yaw == 0.0 && throttle == 0.0 && weapon == 0.0
      ensures !armSwitch && !killSwitch && !selfrightSwitch
      ensures lastPacketMs == 0 && !linkOk
      ensures armState == Disarmed && error == ErrNone
      ensures !armSwitchDebounced && !killSwitchDebounced
      ensures armSwitchStableMs == 0 && killSwitchStableMs == 0 && lastArmThrottle == 0.0
      ensures motorFlPwm == cfg.safeMotorPwm && motorFrPwm == cfg.safeMotorPwm
      ensures motorRlPwm == cfg.safeMotorPwm && motorRrPwm == cfg.safeMotorPwm
      ensures weaponUs == cfg.safeWeaponUs && servoUs == cfg.safeServoUs
      ensures ledLastUpdateMs == 0 && !ledState && errorBlinkCount == 0 && errorBlinkPhase == 0
    {
      loopStartUs, loopDurationUs := 0, 0;
      roll, pitch, yaw, throttle, weapon := 0.0, 0.0, 0.0, 0.0, 0.0;
      armSwitch, killSwitch, selfrightSwitch := false, false, false;
      lastPacketMs, linkOk := 0, false;
      armState, error := Disarmed, ErrNone;
      armSwitchDebounced, killSwitchDebounced := false, false;
      armSwitchStableMs, killSwitchStableMs := 0, 0;
      lastArmThrottle := 0.0;
      motorFlPwm, motorFrPwm := cfg.safeMotorPwm, cfg.safeMotorPwm;
      motorRlPwm, motorRrPwm := cfg.safeMotorPwm, cfg.safeMotorPwm;
      weaponUs, servoUs := cfg.safeWeaponUs, cfg.safeServoUs;
      ledLastUpdateMs, ledState := 0, false;
      errorBlinkCount, errorBlinkPhase := 0, 0;
    }
  }
}
