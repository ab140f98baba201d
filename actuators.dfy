// Actuator outputs (src/actuators.cpp): each drive motor has two direction
// bits in a 74HC595 shift register (bit 2m = A, bit 2m+1 = B for motor m,
// with 0 = rear left, 1 = rear right, 2 = front left, 3 = front right) and
// a PWM duty. The register image kept by `set_motor_direction` is module
// state; the byte last latched into the register and the duties last
// written to the PWM pins are recorded as the hardware's observable state.

module Actuators {
  import opened Types
  import opened State

  /** `1 << i` as a register byte. */
  function Mask(i: nat): (m: bv8)
    requires i < 8
    ensures m != 0
  {
    if i == 0 then 0x01 else if i == 1 then 0x02 else if i == 2 then 0x04 else if i == 3 then 0x08
    else if i == 4 then 0x10 else if i == 5 then 0x20 else if i == 6 then 0x40 else 0x80
  }

  /** Bit `i` of a register byte. */
  predicate BitSet(r: bv8, i: nat)
    requires i < 8
  {
    r & Mask(i) != 0
  }

  /** Motor `m` is driven forward (A high, B low) or in reverse (A low, B high). */
  predicate Drives(r: bv8, m: nat, forward: bool)
    requires m < 4
  {
    BitSet(r, 2 * m) == forward && BitSet(r, 2 * m + 1) == !forward
  }

  /** The two direction bits of motor `m`. */
  function PairMask(m: nat): bv8
    requires m < 4
  {
    Mask(2 * m) | Mask(2 * m + 1)
  }

  /**
   * `set_motor_direction`'s update of the register image: bit 2m is set and
   * bit 2m+1 cleared for forward, the reverse otherwise, and every other
   * motor's bits are kept.
   */
  function WithDirection(reg: bv8, motor: nat, forward: bool): (r: bv8)
    requires motor < 4
    ensures Drives(r, motor, forward)
    ensures r & !PairMask(motor) == reg & !PairMask(motor)
  {
    var a, b := Mask(2 * motor), Mask(2 * motor + 1);
    assert a & b == 0 by {
      if motor == 0 {
      } else if motor == 1 {
      } else if motor == 2 {
      } else {
      }
    }
    PairUpdate(reg, a, b, forward);
    if forward then ClearBits(SetBits(reg, a), b) else SetBits(ClearBits(reg, a), b)
  }

  /** `reg |= m`. */
  function SetBits(reg: bv8, m: bv8): bv8 {
    reg | m
  }

  /** `reg &= ~m`. */
  function ClearBits(reg: bv8, m: bv8): bv8 {
    reg & !m
  }

  /** Setting one of two disjoint masks and clearing the other, on any byte. */
  lemma PairUpdate(reg: bv8, a: bv8, b: bv8, forward: bool)
    requires a != 0 && b != 0 && a & b == 0
    ensures var r := if forward then ClearBits(SetBits(reg, a), b) else SetBits(ClearBits(reg, a), b);
      && (r & a != 0) == forward
      && (r & b != 0) == !forward
      && r & !(a | b) == reg & !(a | b)
  {
  }


  /** The register image after `actuators_update` sets FL, FR, RL, RR in that order. */
  function UpdateDirections(reg: bv8, fl: i16, fr: i16, rl: i16, rr: i16): bv8
  {
    WithDirection(WithDirection(WithDirection(WithDirection(reg, 2, fl >= 0), 3, fr >= 0), 0, rl >= 0), 1, rr >= 0)
  }

  /** The direction byte written out motor by motor: A bit if forward, B bit if reverse. */
  function DirectionByte(rlForward: bool, rrForward: bool, flForward: bool, frForward: bool): (r: bv8)
    ensures Drives(r, 0, rlForward) && Drives(r, 1, rrForward) && Drives(r, 2, flForward) && Drives(r, 3, frForward)
  {
    (if rlForward then 0x01 else 0x02) | (if rrForward then 0x04 else 0x08)
    | (if flForward then 0x10 else 0x20) | (if frForward then 0x40 else 0x80)
  }

  /**
   * After the update every motor has exactly one of its two direction bits
   * set, A exactly when its PWM is non-negative, whatever the register held
   * before: the byte depends on the signs of the four PWMs only.
   */
  lemma DirectionsFollowSigns(reg: bv8, fl: i16, fr: i16, rl: i16, rr: i16)
    ensures UpdateDirections(reg, fl, fr, rl, rr) == DirectionByte(rl >= 0, rr >= 0, fl >= 0, fr >= 0)
  {
  }

  /** The duty written for a signed PWM: its magnitude. */
  function Magnitude(p: i16): (m: nat)
    ensures m == p || m == -(p as int)
  {
    if p < 0 then -(p as int) else p
  }

  /** Everything the module leaves on the hardware, plus its register image. */
  datatype Pins = Pins(
    shiftRegState: bv8, latched: bv8,
    dutyFl: int, dutyFr: int, dutyRl: int, dutyRr: int,
    weaponDuty: int, servoDuty: int)

  /**
   * `actuators_update`: directions from the PWM signs, duties from their
   * magnitudes, weapon and servo pins held at duty 0.
   */
  function UpdatePins(p: Pins, fl: i16, fr: i16, rl: i16, rr: i16): (r: Pins)
    ensures r.latched == r.shiftRegState
    ensures Drives(r.latched, 2, fl >= 0) && Drives(r.latched, 3, fr >= 0)
    ensures Drives(r.latched, 0, rl >= 0) && Drives(r.latched, 1, rr >= 0)
    ensures r.dutyFl == Magnitude(fl) && r.dutyFr == Magnitude(fr)
    ensures r.dutyRl == Magnitude(rl) && r.dutyRr == Magnitude(rr)
    ensures r.weaponDuty == 0 && r.servoDuty == 0
  {
    DirectionsFollowSigns(p.shiftRegState, fl, fr, rl, rr);
    var reg := UpdateDirections(p.shiftRegState, fl, fr, rl, rr);
    Pins(reg, reg, Magnitude(fl), Magnitude(fr), Magnitude(rl), Magnitude(rr), 0, 0)
  }

  /** The module's hardware-facing state. */
  class ActuatorOutputs {
    const cfg: Config
    var shiftRegState: bv8
    var latched: bv8
    var dutyFl: int
    var dutyFr: int
    var dutyRl: int
    var dutyRr: int
    var weaponDuty: int
    var servoDuty: int

    /** Power-on: register image and outputs all zero. */
    constructor (cfg: Config)
      ensures this.cfg == cfg && Snapshot() == Pins(0, 0, 0, 0, 0, 0, 0, 0)
    {
      this.cfg := cfg;
      shiftRegState, latched := 0, 0;
      dutyFl, dutyFr, dutyRl, dutyRr := 0, 0, 0, 0;
      weaponDuty, servoDuty := 0, 0;
    }

    function Snapshot(): Pins
      reads this
    {
      Pins(shiftRegState, latched, dutyFl, dutyFr, dutyRl, dutyRr, weaponDuty, servoDuty)
    }

    /** `set_motor_direction`: update the register image and latch it out. */
    method SetMotorDirection(motor: u8, forward: bool)
      requires motor < 4
      modifies this`shiftRegState, this`latched
      ensures shiftRegState == WithDirection(old(shiftRegState), motor, forward)
      ensures latched == shiftRegState
    {
      var bitA := motor * 2;
      var bitB := motor * 2 + 1;
      if forward {
        shiftRegState := SetBits(shiftRegState, Mask(bitA));
        shiftRegState := ClearBits(shiftRegState, Mask(bitB));
      } else {
        shiftRegState := ClearBits(shiftRegState, Mask(bitA));
        shiftRegState := SetBits(shiftRegState, Mask(bitB));
      }
      latched := shiftRegState;
    }

    /**
     * `actuators_init`: all direction bits latched low (brake), the motor
     * duties at the safe value, weapon and servo at duty 0. The register
     * image is not touched.
     */
    method Init()
      modifies this`latched, this`dutyFl, this`dutyFr, this`dutyRl, this`dutyRr, this`weaponDuty, this`servoDuty
      ensures Snapshot() == Pins(old(shiftRegState), 0, cfg.safeMotorPwm, cfg.safeMotorPwm, cfg.safeMotorPwm, cfg.safeMotorPwm, 0, 0)
    {
      latched := 0x00;
      dutyFl, dutyFr, dutyRl, dutyRr := cfg.safeMotorPwm, cfg.safeMotorPwm, cfg.safeMotorPwm, cfg.safeMotorPwm;
      weaponDuty := 0;
      servoDuty := 0;
    }

    /** `actuators_update` from the motor PWMs in `g_state`. */
    method Update(g: RuntimeState)
      modifies this`shiftRegState, this`latched, this`dutyFl, this`dutyFr, this`dutyRl, this`dutyRr
      modifies this`weaponDuty, this`servoDuty
      ensures Snapshot() == UpdatePins(old(Snapshot()), g.motorFlPwm, g.motorFrPwm, g.motorRlPwm, g.motorRrPwm)
    {
      var fl, fr, rl, rr := g.motorFlPwm, g.motorFrPwm, g.motorRlPwm, g.motorRrPwm;
      SetMotorDirection(2, fl >= 0);
      SetMotorDirection(3, fr >= 0);
      SetMotorDirection(0, rl >= 0);
      SetMotorDirection(1, rr >= 0);
      dutyFl := Magnitude(fl);
      dutyFr := Magnitude(fr);
      dutyRl := Magnitude(rl);
      dutyRr := Magnitude(rr);
      weaponDuty := 0;
      servoDuty := 0;
    }

    /**
     * `actuators_emergency_stop`: safe duties, all direction bits latched
     * high (brake), and the safe values written to `g_state`'s outputs. The
     * register image keeps its old value, so the next update latches
     * directions from the PWMs again.
     */
    method EmergencyStop(g: RuntimeState)
      modifies this`latched, this`dutyFl, this`dutyFr, this`dutyRl, this`dutyRr, this`weaponDuty, this`servoDuty
      modifies g`motorFlPwm, g`motorFrPwm, g`motorRlPwm, g`motorRrPwm, g`weaponUs, g`servoUs
      ensures Snapshot() == Pins(old(shiftRegState), 0xFF, cfg.safeMotorPwm, cfg.safeMotorPwm, cfg.safeMotorPwm, cfg.safeMotorPwm, 0, 0)
      ensures g.motorFlPwm == cfg.safeMotorPwm && g.motorFrPwm == cfg.safeMotorPwm
      ensures g.motorRlPwm == cfg.safeMotorPwm && g.motorRrPwm == cfg.safeMotorPwm
      ensures g.weaponUs == cfg.safeWeaponUs && g.servoUs == cfg.safeServoUs
    {
      dutyFl, dutyFr, dutyRl, dutyRr := cfg.safeMotorPwm, cfg.safeMotorPwm, cfg.safeMotorPwm, cfg.safeMotorPwm;
      latched := 0xFF;
      weaponDuty := 0;
      servoDuty := 0;
      g.motorFlPwm := cfg.safeMotorPwm;
      g.motorFrPwm := cfg.safeMotorPwm;
      g.motorRlPwm := cfg.safeMotorPwm;
      g.motorRrPwm := cfg.safeMotorPwm;
      g.weaponUs := cfg.safeWeaponUs;
      g.servoUs := cfg.safeServoUs;
    }
  }

  /** Every bit of the byte latched by an emergency stop is set: all four motors brake. */
  lemma EmergencyStopBrakesAll()
    ensures forall m | 0 <= m < 4 :: BitSet(0xFF, 2 * m) && BitSet(0xFF, 2 * m + 1)
  {
  }
}
