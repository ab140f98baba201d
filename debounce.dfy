// Time-based switch debouncing (src/utilities.cpp, include/utilities.h).
// The firmware's in/out pointer pair (*debounced_state, *stable_time_ms) is a
// `Switch` value here, and one call is a function from the old pair to the
// new one.
//
// `DebounceAsWritten` is the routine as the firmware has it. It does not
// restart the stability timer when it accepts a change, so the switch it
// just accepted can be flipped back by a single sample
// (`AsWrittenFlipsOnOneSample`). `Debounce` restarts the timer on accepting,
// keeps the header's promise that the raw input must hold its new value for
// the debounce time before the output follows (`DebounceFlipNeedsHold`), and
// is the routine the weapon module uses.

module Debounce {
  import opened Types

  /** The debounced output and the time the stability timer was last restarted. */
  datatype Switch = Switch(debounced: bool, stableMs: u32)

  /** `debounce_switch` as written. */
  function DebounceAsWritten(raw: bool, s: Switch, debounceMs: u8, now: u32): (r: Switch)
    ensures raw == s.debounced ==> r == Switch(s.debounced, now)
    ensures raw != s.debounced ==> r.stableMs == s.stableMs
    ensures r.debounced != s.debounced <==> raw != s.debounced && Elapsed(now, s.stableMs) >= debounceMs
    ensures r.debounced == s.debounced || r.debounced == raw
  {
    if raw != s.debounced then
      if Elapsed(now, s.stableMs) >= debounceMs as int then Switch(raw, s.stableMs) else s
    else
      Switch(s.debounced, now)
  }

  /** `debounce_switch` with the stability timer restarted when a change is accepted. */
  function Debounce(raw: bool, s: Switch, debounceMs: u8, now: u32): (r: Switch)
    ensures raw == s.debounced ==> r == Switch(s.debounced, now)
    ensures raw != s.debounced && Elapsed(now, s.stableMs) < debounceMs ==> r == s
    ensures r.debounced != s.debounced <==> raw != s.debounced && Elapsed(now, s.stableMs) >= debounceMs
    ensures r.debounced == s.debounced || r.debounced == raw
    ensures r.debounced == raw ==> r.stableMs == now
  {
    if raw != s.debounced then
      if Elapsed(now, s.stableMs) >= debounceMs as int then Switch(raw, now) else s
    else
      Switch(s.debounced, now)
  }

  // ----- Runs over a history of samples -----

  /** One call: the raw switch reading and the `millis()` value passed in. */
  datatype Sample = Sample(raw: bool, now: u32)

  /**
   * The state after a history of calls. `hist[0]` stands for the
   * initialisation (`weapon_init` sets the output to the resting value and
   * the timer to the current time); every later sample is one call.
   */
  function Run(hist: seq<Sample>, debounceMs: u8): (s: Switch)
    requires |hist| > 0
    decreases |hist|
  {
    if |hist| == 1 then Switch(hist[0].raw, hist[0].now)
    else
      var k := |hist| - 1;
      Debounce(hist[k].raw, Run(hist[..k], debounceMs), debounceMs, hist[k].now)
  }

  /** The same history run through `DebounceAsWritten`. */
  function RunAsWritten(hist: seq<Sample>, debounceMs: u8): (s: Switch)
    requires |hist| > 0
    decreases |hist|
  {
    if |hist| == 1 then Switch(hist[0].raw, hist[0].now)
    else
      var k := |hist| - 1;
      DebounceAsWritten(hist[k].raw, RunAsWritten(hist[..k], debounceMs), debounceMs, hist[k].now)
  }

  /**
   * The header's contract for a change of output at the last sample: there
   * is an earlier sample `i` still at the old value, every sample after it
   * already reads the new value, and at least `debounceMs` passed since `i`.
   */
  ghost predicate HeldBeforeFlip(hist: seq<Sample>, debounceMs: u8, before: bool, after: bool)
    requires |hist| > 0
  {
    var k := |hist| - 1;
    exists i | 0 <= i < k ::
      && hist[i].raw == before
      && (forall j | i < j <= k :: hist[j].raw == after)
      && Elapsed(hist[k].now, hist[i].now) >= debounceMs
  }

  /** The timer holds the time of the last sample that agreed with the output, and none agreed since. */
  ghost predicate LastAgreement(hist: seq<Sample>, i: int, s: Switch) {
    && 0 <= i < |hist|
    && hist[i].raw == s.debounced
    && s.stableMs == hist[i].now
    && forall j | i < j < |hist| :: hist[j].raw != s.debounced
  }

  /** The invariant `Debounce` keeps along any history. */
  lemma {:induction false} RunTracksLastAgreement(hist: seq<Sample>, debounceMs: u8)
    requires |hist| > 0
    ensures exists i :: LastAgreement(hist, i, Run(hist, debounceMs))
    decreases |hist|
  {
    var k := |hist| - 1;
    var s := Run(hist, debounceMs);
    if k == 0 {
      assert LastAgreement(hist, 0, s);
    } else {
      var p := hist[..k];
      RunTracksLastAgreement(p, debounceMs);
      var prev := Run(p, debounceMs);
      var i :| LastAgreement(p, i, prev);
      assert s == Debounce(hist[k].raw, prev, debounceMs, hist[k].now);
      if s.debounced == prev.debounced && hist[k].raw != prev.debounced {
        assert s == prev;
        assert forall j | i < j < k :: hist[j] == p[j];
        assert LastAgreement(hist, i, s);
      } else {
        assert LastAgreement(hist, k, s);
      }
    }
  }

  /**
   * The debounced output changes only after the raw input has read the new
   * value at every call for at least the debounce time.
   */
  lemma DebounceFlipNeedsHold(hist: seq<Sample>, debounceMs: u8)
    requires |hist| >= 2
    ensures var k := |hist| - 1;
      var before, after := Run(hist[..k], debounceMs), Run(hist, debounceMs);
      after.debounced != before.debounced ==> HeldBeforeFlip(hist, debounceMs, before.debounced, after.debounced)
  {
    var k := |hist| - 1;
    var p := hist[..k];
    var before, after := Run(p, debounceMs), Run(hist, debounceMs);
    if after.debounced != before.debounced {
      RunTracksLastAgreement(p, debounceMs);
      var i :| LastAgreement(p, i, before);
      assert hist[i] == p[i];
      assert forall j | i < j < k :: hist[j] == p[j];
      assert hist[k].raw == after.debounced;
      assert Elapsed(hist[k].now, hist[i].now) >= debounceMs;
    }
  }

  /**
   * With a 10 ms debounce time, the routine as written accepts `true` at
   * 10 ms and flips back to `false` on the single sample at 11 ms, one
   * millisecond after the raw input last read `true`.
   */
  lemma AsWrittenFlipsOnOneSample()
    ensures var h := [Sample(false, 0), Sample(true, 5), Sample(true, 10), Sample(false, 11)];
      && RunAsWritten(h[..3], 10).debounced
      && !RunAsWritten(h, 10).debounced
      && !HeldBeforeFlip(h, 10, true, false)
  {
    var h := [Sample(false, 0), Sample(true, 5), Sample(true, 10), Sample(false, 11)];
    assert h[..1] == [Sample(false, 0)];
    assert h[..2][..1] == h[..1];
    assert h[..3][..2] == h[..2];
    assert RunAsWritten(h[..1], 10) == Switch(false, 0);
    assert RunAsWritten(h[..2], 10) == Switch(false, 0);
    assert RunAsWritten(h[..3], 10) == Switch(true, 0);
    assert RunAsWritten(h, 10) == Switch(false, 0);
  }
}
