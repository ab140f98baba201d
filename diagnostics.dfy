// Status LED (src/diagnostics.cpp): the system status is derived with the
// error first, then link loss, then arming; safe and armed blink the LED at
// two rates, failsafe holds it on, and an error blinks its numeric code,
// pauses, and repeats. The LED pin level and the blinker's remembered error
// are module state; the blink counters live in `g_state`.

module Diagnostics {
  import opened Types
  import opened State

  /** The four LED patterns (include/diagnostics.h). */
  datatype Status = StatusSafe | StatusArmed | StatusFailsafe | StatusError

  /** The status `diagnostics_update` selects: error before link loss before arming. */
  function StatusOf(error: SystemError, linkOk: bool, armed: bool): (s: Status)
    ensures s == StatusError <==> error != ErrNone
    ensures s == StatusFailsafe <==> error == ErrNone && !linkOk
    ensures s == StatusArmed <==> error == ErrNone && linkOk && armed
    ensures s == StatusSafe <==> error == ErrNone && linkOk && !armed
  {
    if error != ErrNone then StatusError
    else if !linkOk then StatusFailsafe
    else if armed then StatusArmed
    else StatusSafe
  }

  /** The diagnostics group of `g_state` together with the level last written to the LED pin. */
  datatype Leds = Leds(lastUpdateMs: u32, ledOn: bool, blinkCount: u8, blinkPhase: u8, pin: bool)

  /** Safe and armed patterns: toggle the LED once the half period has elapsed. */
  function ToggleIfDue(d: Leds, halfPeriodMs: u32, now: u32): (r: Leds)
    ensures Elapsed(now, d.lastUpdateMs) >= halfPeriodMs ==>
      r == d.(lastUpdateMs := now, ledOn := !d.ledOn, pin := !d.ledOn)
    ensures Elapsed(now, d.lastUpdateMs) < halfPeriodMs ==> r == d
  {
    if Elapsed(now, d.lastUpdateMs) >= halfPeriodMs then
      d.(lastUpdateMs := now, ledOn := !d.ledOn, pin := !d.ledOn)
    else d
  }

  /** Blink-counter consistency for an error code of at least one blink. */
  ghost predicate BlinkInvariant(d: Leds, code: u8) {
    && (d.blinkPhase == 0 ==> d.blinkCount < code)
    && (d.blinkPhase != 0 ==> d.blinkCount == 0 && !d.ledOn)
  }

  /** The start of a blink cycle: blinking phase, no blinks yet, LED off. */
  function CycleStart(t: u32): (d: Leds)
    ensures d.blinkPhase == 0 && d.blinkCount == 0 && !d.ledOn && !d.pin && d.lastUpdateMs == t
  {
    Leds(t, false, 0, 0, false)
  }

  /**
   * The phase state machine of `diagnostics_blink_error_code` for a code of
   * `code` blinks. In the blinking phase the LED alternates every
   * `blinkMs`, each falling edge counting one blink in an 8-bit counter;
   * after `code` blinks it enters the pause, in which the LED is held off
   * for `pauseMs` before the cycle restarts.
   */
  function BlinkStep(cfg: Config, d: Leds, code: u8, now: u32): (r: Leds)
    ensures 1 <= code && BlinkInvariant(d, code) ==> BlinkInvariant(r, code)
    ensures d.blinkPhase == 0 && Elapsed(now, d.lastUpdateMs) < cfg.ledErrorBlinkMs ==> r == d
    ensures d.blinkPhase == 0 && Elapsed(now, d.lastUpdateMs) >= cfg.ledErrorBlinkMs && !d.ledOn ==>
      r == d.(lastUpdateMs := now, ledOn := true, pin := true)
    ensures d.blinkPhase == 0 && Elapsed(now, d.lastUpdateMs) >= cfg.ledErrorBlinkMs && d.ledOn && d.blinkCount < 0xFF ==>
      r == (if d.blinkCount + 1 >= code then Leds(now, false, 0, 1, false) else Leds(now, false, d.blinkCount + 1, 0, false))
    ensures d.blinkPhase != 0 ==> !r.pin
    ensures d.blinkPhase != 0 && Elapsed(now, d.lastUpdateMs) >= cfg.ledErrorPauseMs ==> r == d.(blinkPhase := 0, lastUpdateMs := now, pin := false)
    ensures d.blinkPhase != 0 && Elapsed(now, d.lastUpdateMs) < cfg.ledErrorPauseMs ==> r == d.(pin := false)
  {
    if d.blinkPhase == 0 then
      if Elapsed(now, d.lastUpdateMs) >= cfg.ledErrorBlinkMs then
        if d.ledOn then
          var count := (d.blinkCount + 1) % 0x100;
          if count >= code then Leds(now, false, 0, 1, false)
          else Leds(now, false, count, 0, false)
        else
          d.(lastUpdateMs := now, ledOn := true, pin := true)
      else d
    else if Elapsed(now, d.lastUpdateMs) >= cfg.ledErrorPauseMs then
      d.(blinkPhase := 0, lastUpdateMs := now, pin := false)
    else
      d.(pin := false)
  }

  /**
   * `diagnostics_blink_error_code`: a change of error since the last call
   * restarts the cycle with the LED off before the phase machine runs.
   * Returns the remembered error and the new LED state.
   */
  function ErrorBlink(cfg: Config, lastError: SystemError, d: Leds, error: SystemError, now: u32): (r: (SystemError, Leds))
    ensures r.0 == error
    ensures error != lastError ==> r.1 == BlinkStep(cfg, CycleStart(now), error.Code(), now)
    ensures error == lastError ==> r.1 == BlinkStep(cfg, d, error.Code(), now)
  {
    var start := if error != lastError then CycleStart(now) else d;
    (error, BlinkStep(cfg, start, error.Code(), now))
  }

  /** `diagnostics_update`: the pattern for the current status. */
  function DiagnosticsStep(cfg: Config, lastError: SystemError, d: Leds, error: SystemError, linkOk: bool, armed: bool, now: u32)
    : (r: (SystemError, Leds))
    ensures error == ErrNone && !linkOk ==> r == (lastError, d.(pin := true))
    ensures error == ErrNone && linkOk && !armed ==> r == (lastError, ToggleIfDue(d, cfg.ledBlinkSafeMs, now))
    ensures error == ErrNone && linkOk && armed ==> r == (lastError, ToggleIfDue(d, cfg.ledBlinkArmedMs, now))
    ensures error != ErrNone ==> r == ErrorBlink(cfg, lastError, d, error, now)
  {
    match StatusOf(error, linkOk, armed)
    case StatusSafe => (lastError, ToggleIfDue(d, cfg.ledBlinkSafeMs, now))
    case StatusArmed => (lastError, ToggleIfDue(d, cfg.ledBlinkArmedMs, now))
    case StatusFailsafe => (lastError, d.(pin := true))
    case StatusError => ErrorBlink(cfg, lastError, d, error, now)
  }

  // ----- The blink cycle over time -----

  /** The LED state after the phase machine ran at each of the times `ts`. */
  function BlinkRun(cfg: Config, d: Leds, code: u8, ts: seq<u32>): (r: Leds)
    decreases |ts|
  {
    if |ts| == 0 then d else BlinkStep(cfg, BlinkRun(cfg, d, code, ts[..|ts| - 1]), code, ts[|ts| - 1])
  }

  /** Each call comes at least `gapMs` after the previous one, the first at least `gapMs` after `t0`. */
  ghost predicate Spaced(t0: u32, ts: seq<u32>, gapMs: u32) {
    && (|ts| > 0 ==> Elapsed(ts[0], t0) >= gapMs)
    && forall i | 0 < i < |ts| :: Elapsed(ts[i], ts[i - 1]) >= gapMs
  }

  /** Where the cycle is after `j` timed calls: on after odd calls, the pause after `2 * code`. */
  function CycleAt(code: u8, j: nat, t: u32): Leds
    requires j <= 2 * code
  {
    if j == 2 * code then Leds(t, false, 0, 1, false)
    else Leds(t, j % 2 == 1, j / 2, 0, j % 2 == 1)
  }

  /**
   * An error code of N blinks: starting a cycle and calling at least every
   * blink interval, the LED is on after calls 1, 3, ..., 2N-1 and off after
   * the even calls, the blink counter counts the falling edges, and the
   * 2N-th call enters the pause with the LED off and the counter cleared.
   */
  lemma {:induction false} ErrorCodeBlinksN(cfg: Config, t0: u32, code: u8, ts: seq<u32>)
    requires 1 <= code && 1 <= |ts| <= 2 * code
    requires Spaced(t0, ts, cfg.ledErrorBlinkMs)
    ensures BlinkRun(cfg, CycleStart(t0), code, ts) == CycleAt(code, |ts|, ts[|ts| - 1])
    decreases |ts|
  {
    var j := |ts|;
    var p := ts[..j - 1];
    if j == 1 {
      assert p == [];
      assert CycleAt(code, 0, t0) == CycleStart(t0);
      CycleAdvances(cfg, code, 1, t0, ts[0]);
    } else {
      assert Spaced(t0, p, cfg.ledErrorBlinkMs) by {
        assert p[0] == ts[0];
        forall i | 0 < i < |p| ensures Elapsed(p[i], p[i - 1]) >= cfg.ledErrorBlinkMs {
          assert p[i] == ts[i] && p[i - 1] == ts[i - 1];
        }
      }
      ErrorCodeBlinksN(cfg, t0, code, p);
      assert p[|p| - 1] == ts[j - 2];
      CycleAdvances(cfg, code, j, ts[j - 2], ts[j - 1]);
    }
  }

  /** One timed call moves the cycle from its `j - 1`-th to its `j`-th position. */
  lemma CycleAdvances(cfg: Config, code: u8, j: nat, t: u32, now: u32)
    requires 1 <= code && 1 <= j <= 2 * code
    requires Elapsed(now, t) >= cfg.ledErrorBlinkMs
    ensures BlinkStep(cfg, CycleAt(code, j - 1, t), code, now) == CycleAt(code, j, now)
  {
    if (j - 1) % 2 == 1 {
      assert (j - 1) / 2 + 1 == j / 2;
    }
  }

  /** After the pause the cycle starts over: the pattern repeats. */
  lemma PauseRestartsCycle(cfg: Config, code: u8, t: u32, now: u32)
    requires Elapsed(now, t) >= cfg.ledErrorPauseMs
    ensures BlinkStep(cfg, CycleAt(code, 2 * code, t), code, now) == CycleStart(now)
  {
  }

  // ----- The module as it runs -----

  /** The module's private state: the blinker's last error and the LED pin level. */
  class DiagnosticsControl {
    const cfg: Config
    var lastError: SystemError
    var pin: bool

    constructor (cfg: Config)
      ensures this.cfg == cfg && lastError == ErrNone && !pin
    {
      this.cfg := cfg;
      lastError := ErrNone;
      pin := false;
    }

    /** The diagnostics fields of `g_state` and the pin as a value. */
    function LedsOf(g: RuntimeState): (d: Leds)
      reads this, g
      ensures d.lastUpdateMs == g.ledLastUpdateMs && d.ledOn == g.ledState && d.pin == pin
      ensures d.blinkCount == g.errorBlinkCount && d.blinkPhase == g.errorBlinkPhase
    {
      Leds(g.ledLastUpdateMs, g.ledState, g.errorBlinkCount, g.errorBlinkPhase, pin)
    }

    /** `diagnostics_init`: LED off, counters cleared. */
    method Init(g: RuntimeState)
      modifies this`pin, g`ledLastUpdateMs, g`ledState, g`errorBlinkCount, g`errorBlinkPhase
      ensures LedsOf(g) == Leds(0, false, 0, 0, false)
    {
      pin := false;
      g.ledLastUpdateMs := 0;
      g.ledState := false;
      g.errorBlinkCount := 0;
      g.errorBlinkPhase := 0;
    }

    /** `diagnostics_blink_error_code`, statement by statement. */
    method BlinkErrorCode(g: RuntimeState, error: SystemError, now: u32)
      modifies this`pin, this`lastError, g`ledLastUpdateMs, g`ledState, g`errorBlinkCount, g`errorBlinkPhase
      ensures (lastError, LedsOf(g)) == ErrorBlink(cfg, old(lastError), old(LedsOf(g)), error, now)
    {
      var blinkCount := error.Code();
      if error != lastError {
        g.errorBlinkPhase := 0;
        g.errorBlinkCount := 0;
        g.ledLastUpdateMs := now;
        g.ledState := false;
        pin := false;
        lastError := error;
      }

      if g.errorBlinkPhase == 0 {
        if Elapsed(now, g.ledLastUpdateMs) >= cfg.ledErrorBlinkMs {
          g.ledLastUpdateMs := now;
          if g.ledState {
            pin := false;
            g.ledState := false;
            g.errorBlinkCount := (g.errorBlinkCount + 1) % 0x100;
            if g.errorBlinkCount >= blinkCount {
              g.errorBlinkPhase := 1;
              g.errorBlinkCount := 0;
            }
          } else {
            pin := true;
            g.ledState := true;
          }
        }
      } else {
        pin := false;
        if Elapsed(now, g.ledLastUpdateMs) >= cfg.ledErrorPauseMs {
          g.errorBlinkPhase := 0;
          g.ledLastUpdateMs := now;
        }
      }
    }

    /** `diagnostics_update` with the error, link and arming state read from `g_state`. */
    method Update(g: RuntimeState, now: u32)
      modifies this`pin, this`lastError, g`ledLastUpdateMs, g`ledState, g`errorBlinkCount, g`errorBlinkPhase
      ensures (lastError, LedsOf(g))
        == DiagnosticsStep(cfg, old(lastError), old(LedsOf(g)), g.error, g.linkOk, g.armState == Armed, now)
    {
      var error := g.error;
      var linkOk := g.linkOk;
      var armed := g.armState == Armed;
      var status := StatusOf(error, linkOk, armed);
      match status {
        case StatusSafe =>
          if Elapsed(now, g.ledLastUpdateMs) >= cfg.ledBlinkSafeMs {
            g.ledLastUpdateMs := now;
            g.ledState := !g.ledState;
            pin := g.ledState;
          }
        case StatusArmed =>
          if Elapsed(now, g.ledLastUpdateMs) >= cfg.ledBlinkArmedMs {
            g.ledLastUpdateMs := now;
            g.ledState := !g.ledState;
            pin := g.ledState;
          }
        case StatusFailsafe =>
          pin := true;
        case StatusError =>
          BlinkErrorCode(g, error, now);
      }
    }
  }
}
