// Shared vocabulary of the firmware: fixed-width integers, the arming and
// error enumerations of include/state.h, and the build-time tuning constants
// that the firmware reads from its configuration header.

module Types {

  const TWO_32: int := 0x1_0000_0000

  /** Unsigned 8-, 16- and 32-bit integers and a signed 16-bit integer. */
  type u8 = x: int | 0 <= x < 0x100
  type u16 = x: int | 0 <= x < 0x1_0000
  type u32 = x: int | 0 <= x < 0x1_0000_0000
  type i16 = x: int | -0x8000 <= x < 0x8000

  /**
   * `now - since` computed in uint32_t arithmetic: the difference wraps
   * modulo 2^32, so a counter that rolled over still yields the true gap
   * as long as that gap is below 2^32.
   */
  function Elapsed(now: u32, since: u32): (r: u32)
    ensures now >= since ==> r == now - since
    ensures now < since ==> r == now - since + TWO_32
  {
    (now - since) % TWO_32
  }

  /** Arming state of the weapon (include/state.h). */
  datatype ArmState = Disarmed | Armed

  /** System error codes; the numeric code doubles as the LED blink count. */
  datatype SystemError =
    | ErrNone
    | ErrLoopOverrun
    | ErrWatchdogReset
    | ErrCrsfTimeout
    | ErrCrsfCrc
  {
    function Code(): (c: u8)
      ensures c <= 4
      ensures c == 0 <==> this == ErrNone
    {
      match this
      case ErrNone => 0
      case ErrLoopOverrun => 1
      case ErrWatchdogReset => 2
      case ErrCrsfTimeout => 3
      case ErrCrsfCrc => 4
    }
  }

  /** The codes are distinct, so the code identifies the error. */
  lemma CodeInjective(a: SystemError, b: SystemError)
    ensures a.Code() == b.Code() ==> a == b
  {
  }

  /**
   * Tuning constants. Their values are not fixed here; `Valid` collects the
   * relations between them that the firmware relies on.
   */
  datatype Config = Config(
    linkTimeoutMs: u32,
    switchDebounceMs: u8,
    armThrottle: real,
    rearmThrottle: real,
    weaponMinUs: u16,
    weaponMaxUs: u16,
    weaponSlewMax: u16,
    servoNeutralUs: u16,
    servoRetractUs: u16,
    servoExtendUs: u16,
    servoSlewMax: u16,
    loopPeriodUs: u32,
    ledBlinkSafeMs: u32,
    ledBlinkArmedMs: u32,
    ledErrorBlinkMs: u32,
    ledErrorPauseMs: u32,
    inputDeadband: real,
    safeMotorPwm: i16,
    safeWeaponUs: u16,
    safeServoUs: u16,
    telemetryUpdateMs: u32)
  {
    ghost predicate Valid() {
      && rearmThrottle < armThrottle
      && weaponMinUs <= weaponMaxUs < 0x8000
      && 0 < weaponSlewMax < 0x8000
      && servoRetractUs <= servoNeutralUs <= servoExtendUs < 0x8000
      && 0 < servoSlewMax < 0x8000
      && 0.0 <= inputDeadband < 1.0
    }
  }
}
