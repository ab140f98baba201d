// The safety module (src/safety.cpp, include/safety.h): a sticky,
// first-error-wins error register and read-only accessors for the arming
// state.

module Safety {
  import opened Types
  import opened State

  /** The error register after `safety_set_error(e)` is called on `current`. */
  function SubmitError(current: SystemError, e: SystemError): (r: SystemError)
    ensures r == current || r == e
    ensures current != ErrNone ==> r == current
    ensures r == ErrNone <==> current == ErrNone && e == ErrNone
  {
    if current == ErrNone then e else current
  }

  /** Submitting to an empty register records the submitted error. */
  lemma SubmitToEmptyRecords(e: SystemError)
    ensures SubmitError(ErrNone, e) == e
  {
  }

  /** A recorded error is never overwritten, whatever is submitted. */
  lemma SubmitIsSticky(current: SystemError, e: SystemError)
    requires current != ErrNone
    ensures SubmitError(current, e) == current
  {
  }

  /** Submitting never clears the register. */
  lemma SubmitNeverClears(current: SystemError, e: SystemError)
    ensures SubmitError(current, e) == ErrNone ==> current == ErrNone && e == ErrNone
  {
  }

  /** The register after a whole sequence of submissions, oldest first. */
  function SubmitAll(current: SystemError, es: seq<SystemError>): (r: SystemError)
    decreases |es|
  {
    if |es| == 0 then current else SubmitAll(SubmitError(current, es[0]), es[1..])
  }

  /** The first error of `es` that is not ErrNone, or ErrNone if there is none. */
  function FirstError(es: seq<SystemError>): (r: SystemError)
    ensures r != ErrNone ==> r in es
    ensures r == ErrNone <==> forall i | 0 <= i < |es| :: es[i] == ErrNone
  {
    if |es| == 0 then ErrNone else if es[0] != ErrNone then es[0] else FirstError(es[1..])
  }

  /**
   * First error wins across any run: starting from a clear register, the
   * register ends up holding the first real error submitted; starting from
   * a set register, it is unchanged.
   */
  lemma {:induction false} SubmitAllFirstWins(current: SystemError, es: seq<SystemError>)
    ensures current == ErrNone ==> SubmitAll(current, es) == FirstError(es)
    ensures current != ErrNone ==> SubmitAll(current, es) == current
    decreases |es|
  {
    if |es| > 0 {
      SubmitAllFirstWins(SubmitError(current, es[0]), es[1..]);
    }
  }

  /** `safety_init`: disarmed, no error. */
  method Init(g: RuntimeState)
    modifies g`armState, g`error
    ensures g.armState == Disarmed && g.error == ErrNone
  {
    g.armState := Disarmed;
    g.error := ErrNone;
  }

  /** `safety_is_safe`: safe exactly when no error is recorded. */
  function IsSafe(g: RuntimeState): (safe: bool)
    reads g
    ensures safe <==> g.error == ErrNone
  {
    g.error == ErrNone
  }

  /** `safety_set_error`: first error wins; only the error register is written. */
  method SetError(g: RuntimeState, e: SystemError)
    modifies g`error
    ensures g.error == SubmitError(old(g.error), e)
  {
    if g.error == ErrNone {
      g.error := e;
    }
  }

  /** `safety_get_arm_state`. */
  function GetArmState(g: RuntimeState): (s: ArmState)
    reads g
    ensures s == g.armState
  {
    g.armState
  }

  /** `safety_is_armed`: armed exactly when the stored state is Armed. */
  function IsArmed(g: RuntimeState): (armed: bool)
    reads g
    ensures armed <==> g.armState == Armed
  {
    GetArmState(g) == Armed
  }

  /** `safety_get_error`. */
  function GetError(g: RuntimeState): (e: SystemError)
    reads g
    ensures e == g.error
  {
    g.error
  }

  /** `safety_clear_error`: unconditionally empties the register. */
  method ClearError(g: RuntimeState)
    modifies g`error
    ensures g.error == ErrNone
  {
    g.error := ErrNone;
  }

  /** After a clear, the next submitted error takes effect again. */
  method ClearThenSet(g: RuntimeState, e: SystemError)
    modifies g`error
    ensures g.error == e
  {
    ClearError(g);
    SetError(g, e);
    SubmitToEmptyRecords(e);
  }
}
