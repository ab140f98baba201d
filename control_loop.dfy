// The fixed-rate control loop (src/main.cpp): `setup` initialises the
// outputs, the safety state and the LED, and schedules the first tick one
// period ahead; `loop` returns at once until the tick is due, then records
// the start time, flags an overrun when the tick is more than a period
// late, advances the deadline by exactly one period, kicks the watchdog and
// runs the actuator and LED updates.
//
// The firmware compares the 32-bit microsecond counter and the deadline
// as plain unsigned numbers (`TickAsWritten`). Near the counter's wrap
// (every 2^32 us, about 71.6 minutes) those comparisons see a deadline
// that has wrapped to a small number as long past, and an on-time tick as
// an overrun (`AsWrittenMisfiresAtWrap`). `TickDecision` compares through
// the signed 32-bit difference instead, agrees with the firmware away from
// the wrap (`AgreesAwayFromWrap`), and is what `Scheduler` runs.

module ControlLoop {
  import opened Types
  import opened State
  import Safety
  import Actuators
  import Diagnostics

  /** Reduction modulo 2^32, as uint32_t arithmetic does it. */
  function Wrap32(x: int): (r: u32)
    ensures 0 <= x < TWO_32 ==> r == x
    ensures TWO_32 <= x < 2 * TWO_32 ==> r == x - TWO_32
    ensures -TWO_32 <= x < 0 ==> r == x + TWO_32
  {
    x % TWO_32
  }

  /** `(int32_t)(a - b)`: how far `a` is past `b`, negative when it is before. */
  function SignedDiff(a: u32, b: u32): (d: int)
    ensures -0x8000_0000 <= d < 0x8000_0000
    ensures Wrap32(b + d) == a
  {
    var e := Elapsed(a, b);
    if e < 0x8000_0000 then e else e - TWO_32
  }

  /** What one call of `loop` does: return early, or run a tick and move the deadline. */
  datatype Tick = Wait | Run(overrun: bool, next: u32)

  /** The gate and overrun check as written: unsigned compares, `next + period` wrapping. */
  function TickAsWritten(next: u32, now: u32, period: u32): (t: Tick)
    ensures t == Wait <==> now < next
    ensures t.Run? ==> t.next == Wrap32(next + period)
    ensures t.Run? && next + period >= TWO_32 ==> t.overrun
  {
    if now < next then Wait
    else Run(now > Wrap32(next + period), Wrap32(next + period))
  }

  /** The gate and overrun check on the signed difference between now and the deadline. */
  function TickDecision(next: u32, now: u32, period: u32): (t: Tick)
    ensures t == Wait <==> Elapsed(now, next) >= 0x8000_0000
    ensures t.Run? ==> t.next == Wrap32(next + period) && (t.overrun <==> Elapsed(now, next) > period)
  {
    var late := SignedDiff(now, next);
    if late < 0 then Wait else Run(late > period, Wrap32(next + period))
  }

  /**
   * Whenever the true time is within 2^31 us of the deadline, on either
   * side, `TickDecision` waits exactly while the deadline is ahead, flags
   * an overrun exactly when the tick is more than one period late, and
   * moves the deadline by exactly one period, with no catch-up.
   */
  lemma TickMatchesTrueTime(next: u32, late: int, period: u32)
    requires -0x8000_0000 <= late < 0x8000_0000
    ensures var t := TickDecision(next, Wrap32(next + late), period);
      && (t == Wait <==> late < 0)
      && (t.Run? ==> t.overrun == (late > period) && t.next == Wrap32(next + period))
  {
    var now := Wrap32(next + late);
    assert SignedDiff(now, next) == late;
  }

  /**
   * As long as neither the counter nor `next + period` has wrapped, the
   * firmware's unsigned compares decide exactly what `TickDecision` does.
   */
  lemma AgreesAwayFromWrap(next: u32, now: u32, period: u32)
    requires next + period < TWO_32
    requires now - next < 0x8000_0000 && next - now <= 0x8000_0000
    ensures TickAsWritten(next, now, period) == TickDecision(next, now, period)
  {
  }

  /**
   * With a 10 ms period and the deadline 5 ms before the counter wraps, a
   * tick exactly on time is flagged as an overrun; the deadline wraps to
   * 5000, and the next call, 10 us later and 9.99 ms early, runs another
   * tick at once and flags another overrun. `TickDecision` flags neither
   * and waits on the second call.
   */
  lemma AsWrittenMisfiresAtWrap()
    ensures TickAsWritten(TWO_32 - 5000, TWO_32 - 5000, 10000) == Run(true, 5000)
    ensures TickDecision(TWO_32 - 5000, TWO_32 - 5000, 10000) == Run(false, 5000)
    ensures TickAsWritten(5000, TWO_32 - 4990, 10000) == Run(true, 15000)
    ensures TickDecision(5000, TWO_32 - 4990, 10000) == Wait
  {
    assert SignedDiff(TWO_32 - 5000, TWO_32 - 5000) == 0;
    assert SignedDiff(TWO_32 - 4990, 5000) == -9990;
  }

  /** `next_loop_us` and the recorded watchdog kicks. */
  class Scheduler {
    const cfg: Config
    var nextLoopUs: u32
    var watchdogKicks: nat

    constructor (cfg: Config)
      ensures this.cfg == cfg && nextLoopUs == 0 && watchdogKicks == 0
    {
      this.cfg := cfg;
      nextLoopUs := 0;
      watchdogKicks := 0;
    }

    /**
     * `setup`: actuators first (safe outputs), then the safety state, then
     * the LED, and the first tick one period after `nowUs`.
     */
    method Setup(g: RuntimeState, act: Actuators.ActuatorOutputs, diag: Diagnostics.DiagnosticsControl, nowUs: u32)
      modifies this`nextLoopUs, act, diag`pin
      modifies g`armState, g`error, g`ledLastUpdateMs, g`ledState, g`errorBlinkCount, g`errorBlinkPhase
      ensures diag.lastError == old(diag.lastError)
      ensures act.Snapshot() == Actuators.Pins(old(act.shiftRegState), 0,
        act.cfg.safeMotorPwm, act.cfg.safeMotorPwm, act.cfg.safeMotorPwm, act.cfg.safeMotorPwm, 0, 0)
      ensures g.armState == Disarmed && g.error == ErrNone
      ensures diag.LedsOf(g) == Diagnostics.Leds(0, false, 0, 0, false)
      ensures nextLoopUs == Wrap32(nowUs + cfg.loopPeriodUs)
    {
      act.Init();
      Safety.Init(g);
      diag.Init(g);
      nextLoopUs := Wrap32(nowUs + cfg.loopPeriodUs);
    }

    /**
     * `loop` at counter value `nowUs`; `nowMs` is the millisecond clock the
     * LED update reads and `endUs` the counter read at the end of the tick.
     */
    method Loop(g: RuntimeState, act: Actuators.ActuatorOutputs, diag: Diagnostics.DiagnosticsControl,
                nowUs: u32, nowMs: u32, endUs: u32)
      modifies this`nextLoopUs, this`watchdogKicks, act, diag
      modifies g`loopStartUs, g`loopDurationUs, g`error, g`ledLastUpdateMs, g`ledState, g`errorBlinkCount, g`errorBlinkPhase
      ensures var t := TickDecision(old(nextLoopUs), nowUs, cfg.loopPeriodUs);
        t == Wait ==> unchanged(this, g, act, diag)
      ensures var t := TickDecision(old(nextLoopUs), nowUs, cfg.loopPeriodUs);
        t.Run? ==>
          && nextLoopUs == t.next
          && watchdogKicks == old(watchdogKicks) + 1
          && g.loopStartUs == nowUs
          && g.error == (if t.overrun then Safety.SubmitError(old(g.error), ErrLoopOverrun) else old(g.error))
          && act.Snapshot() == Actuators.UpdatePins(old(act.Snapshot()), g.motorFlPwm, g.motorFrPwm, g.motorRlPwm, g.motorRrPwm)
          && (diag.lastError, diag.LedsOf(g)) == Diagnostics.DiagnosticsStep(diag.cfg, old(diag.lastError), old(diag.LedsOf(g)),
               g.error, g.linkOk, g.armState == Armed, nowMs)
          && g.loopDurationUs == Elapsed(endUs, nowUs)
    {
      var late := SignedDiff(nowUs, nextLoopUs);
      if late < 0 {
        return;
      }
      RunTick(g, act, diag, nowUs, nowMs, endUs, late > cfg.loopPeriodUs);
    }

    /** The body of an executed tick, from recording the start time to recording the duration. */
    method RunTick(g: RuntimeState, act: Actuators.ActuatorOutputs, diag: Diagnostics.DiagnosticsControl,
                   nowUs: u32, nowMs: u32, endUs: u32, overrun: bool)
      modifies this`nextLoopUs, this`watchdogKicks, act, diag
      modifies g`loopStartUs, g`loopDurationUs, g`error, g`ledLastUpdateMs, g`ledState, g`errorBlinkCount, g`errorBlinkPhase
      ensures nextLoopUs == Wrap32(old(nextLoopUs) + cfg.loopPeriodUs)
      ensures watchdogKicks == old(watchdogKicks) + 1
      ensures g.loopStartUs == nowUs
      ensures g.error == (if overrun then Safety.SubmitError(old(g.error), ErrLoopOverrun) else old(g.error))
      ensures act.Snapshot() == Actuators.UpdatePins(old(act.Snapshot()), g.motorFlPwm, g.motorFrPwm, g.motorRlPwm, g.motorRrPwm)
      ensures (diag.lastError, diag.LedsOf(g)) == Diagnostics.DiagnosticsStep(diag.cfg, old(diag.lastError), old(diag.LedsOf(g)),
        g.error, g.linkOk, g.armState == Armed, nowMs)
      ensures g.loopDurationUs == Elapsed(endUs, nowUs)
    {
      ghost var leds0 := diag.LedsOf(g);
      g.loopStartUs := nowUs;
      if overrun {
        Safety.SetError(g, ErrLoopOverrun);
      }
      nextLoopUs := Wrap32(nextLoopUs + cfg.loopPeriodUs);
      watchdogKicks := watchdogKicks + 1;
      assert diag.LedsOf(g) == leds0;
      UpdateOutputs(g, act, diag, nowMs);
      ghost var leds := diag.LedsOf(g);
      g.loopDurationUs := Elapsed(endUs, g.loopStartUs);
      assert diag.LedsOf(g) == leds;
    }

    /** `actuators_update` and then `diagnostics_update`, as the tick runs them. */
    static method UpdateOutputs(g: RuntimeState, act: Actuators.ActuatorOutputs, diag: Diagnostics.DiagnosticsControl, nowMs: u32)
      modifies act, diag, g`ledLastUpdateMs, g`ledState, g`errorBlinkCount, g`errorBlinkPhase
      ensures act.Snapshot() == Actuators.UpdatePins(old(act.Snapshot()), g.motorFlPwm, g.motorFrPwm, g.motorRlPwm, g.motorRrPwm)
      ensures (diag.lastError, diag.LedsOf(g)) == Diagnostics.DiagnosticsStep(diag.cfg, old(diag.lastError), old(diag.LedsOf(g)),
        g.error, g.linkOk, g.armState == Armed, nowMs)
    {
      act.Update(g);
      diag.Update(g, nowMs);
    }
  }
}
