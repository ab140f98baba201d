// The CRSF receiver link as pure functions (src/input.cpp): the five-state
// frame assembler one byte at a time, the effect of each completed frame on
// the input and link state, the conversion of raw channel values into stick
// and switch inputs, and the link-timeout failsafe. The imperative receiver
// in module Input is proved to follow these functions byte by byte.

module Crsf {
  import opened Types
  import Crc8
  import Channels
  import Safety

  const ADDRESS_FLIGHT_CONTROLLER: bv8 := 0xC8
  const FRAMETYPE_RC_CHANNELS: bv8 := 0x16
  const FRAMETYPE_BATTERY_SENSOR: bv8 := 0x08
  const FRAME_SIZE_MAX: nat := 64
  const PAYLOAD_SIZE_MAX: nat := 62
  const RC_CHANNELS_PAYLOAD_SIZE: nat := 22
  /** Length byte of an RC-channels frame: type, 22 payload bytes, CRC. */
  const RC_FRAME_LENGTH: nat := 1 + RC_CHANNELS_PAYLOAD_SIZE + 1

  const CHANNEL_VALUE_MIN: int := 172
  const CHANNEL_VALUE_MID: int := 992
  const CHANNEL_VALUE_MAX: int := 1811

  // ----- Channel values to inputs -----

  /** `normalize_channel`: the raw value mapped to [-1, +1] around the centre 992. */
  function NormalizeChannel(raw: int): (r: real)
    ensures -1.0 <= r <= 1.0
    ensures r == 0.0 <==> raw == CHANNEL_VALUE_MID
    ensures raw > CHANNEL_VALUE_MID ==> r > 0.0
    ensures raw < CHANNEL_VALUE_MID ==> r < 0.0
    ensures raw >= CHANNEL_VALUE_MAX ==> r == 1.0
    ensures raw <= CHANNEL_VALUE_MIN ==> r == -1.0
  {
    var n := (raw - CHANNEL_VALUE_MID) as real / (CHANNEL_VALUE_MAX - CHANNEL_VALUE_MID) as real;
    if n < -1.0 then -1.0 else if n > 1.0 then 1.0 else n
  }

  /**
   * `normalize_channel` as the firmware computes it on its 16-bit-int target:
   * `raw - 992` of a `uint16_t` is `unsigned int` arithmetic there, so below
   * the centre the difference wraps to 2^16 + raw - 992, the quotient is far
   * above 1 and the clamp returns +1. The result is never negative, and it
   * agrees with `NormalizeChannel` from the centre up.
   */
  function NormalizeChannelAsWritten(raw: int): (r: real)
    requires 0 <= raw < 0x1_0000
    ensures 0.0 <= r <= 1.0
    ensures raw >= CHANNEL_VALUE_MID ==> r == NormalizeChannel(raw)
  {
    var n := ((raw - CHANNEL_VALUE_MID) % 0x1_0000) as real / (CHANNEL_VALUE_MAX - CHANNEL_VALUE_MID) as real;
    if n < -1.0 then -1.0 else if n > 1.0 then 1.0 else n
  }

  /**
   * Every channel value below the centre reads as full deflection in the
   * positive direction: +1 for the sticks, also after the deadband, and a
   * full weapon level for the slider, where the signed difference gives a
   * negative stick and a weapon level below one half. At the stick minimum
   * 172 the two are full scale apart.
   */
  lemma AsWrittenBelowCentreReadsFull(raw: int, deadband: real)
    requires 0 <= raw < CHANNEL_VALUE_MID && 0.0 <= deadband < 1.0
    ensures NormalizeChannelAsWritten(raw) == 1.0 && NormalizeChannel(raw) < 0.0
    ensures ApplyDeadband(NormalizeChannelAsWritten(raw), deadband) == 1.0
    ensures WeaponLevel(NormalizeChannelAsWritten(raw)) == 1.0 && WeaponLevel(NormalizeChannel(raw)) < 0.5
    ensures raw == CHANNEL_VALUE_MIN ==> NormalizeChannel(raw) == -1.0
  {
    var d := (raw - CHANNEL_VALUE_MID) % 0x1_0000;
    assert d == raw - CHANNEL_VALUE_MID + 0x1_0000;
    assert d as real / 819.0 > 1.0;
  }

  /**
   * `apply_deadband`: inputs within the deadband become exactly 0, the rest
   * is rescaled so that the full range [-1, +1] is still reached.
   */
  function ApplyDeadband(x: real, deadband: real): (r: real)
    requires 0.0 <= deadband < 1.0
    ensures -deadband <= x <= deadband ==> r == 0.0
    ensures x > deadband ==> r > 0.0
    ensures x < -deadband ==> r < 0.0
    ensures -1.0 <= x <= 1.0 ==> -1.0 <= r <= 1.0
    ensures x == 1.0 ==> r == 1.0
    ensures x == -1.0 ==> r == -1.0
  {
    if -deadband <= x <= deadband then 0.0
    else if x > 0.0 then ScaledBy(x - deadband, 1.0 - deadband)
    else ScaledBy(x + deadband, 1.0 - deadband)
  }

  /** `y / a` for a positive divisor `a` up to 1, with the sign and bound facts the deadband needs. */
  function ScaledBy(y: real, a: real): (r: real)
    requires 0.0 < a <= 1.0
    ensures y > 0.0 ==> r > 0.0
    ensures y < 0.0 ==> r < 0.0
    ensures -a <= y <= a ==> -1.0 <= r <= 1.0
    ensures y == a ==> r == 1.0
    ensures y == -a ==> r == -1.0
  {
    QuotientBounds(y, a);
    y / a
  }

  lemma QuotientBounds(y: real, a: real)
    requires 0.0 < a <= 1.0
    ensures (y / a) * a == y
    ensures y > 0.0 ==> y / a > 0.0
    ensures y < 0.0 ==> y / a < 0.0
    ensures -a <= y <= a ==> -1.0 <= y / a <= 1.0
  {
    var r := y / a;
    assert r * a == y;
    if -a <= y <= a {
      assert -1.0 * a <= r * a <= 1.0 * a;
    }
  }

  /** The weapon slider: the normalized value mapped from [-1, +1] onto [0, 1]. */
  function WeaponLevel(n: real): (r: real)
    ensures 0.0 <= r <= 1.0
    ensures -1.0 <= n <= 1.0 ==> r == (n + 1.0) / 2.0
  {
    var w := (n + 1.0) / 2.0;
    if w < 0.0 then 0.0 else if w > 1.0 then 1.0 else w
  }

  /** `decode_3pos_switch`: low, middle or high band of the raw value. */
  function DecodeSwitch(raw: int): (pos: u8)
    ensures pos <= 2
    ensures pos == 0 <==> raw < 700
    ensures pos == 1 <==> 700 <= raw < 1300
    ensures pos == 2 <==> raw >= 1300
  {
    if raw < 700 then 0 else if raw < 1300 then 1 else 2
  }

  /** The input fields of `g_state.input` that a channels frame or the failsafe writes. */
  datatype InputView = InputView(
    roll: real, pitch: real, yaw: real, throttle: real, weapon: real,
    armSwitch: bool, killSwitch: bool, selfrightSwitch: bool)

  /** Every stick at zero and every switch off. */
  const NEUTRAL_INPUT: InputView := InputView(0.0, 0.0, 0.0, 0.0, 0.0, false, false, false)

  /**
   * `process_rc_channels_frame`: roll, pitch, throttle and yaw from channels
   * 0, 1, 2 and 3 with deadband, the weapon level from channel 7, and the
   * arm, kill and self-right switches from the high band of channels 4, 5
   * and 6.
   */
  function RcInputs(cfg: Config, ch: seq<bv16>): (r: InputView)
    requires cfg.Valid() && |ch| == Channels.NUM_CHANNELS
    ensures r.armSwitch <==> ch[4] as int >= 1300
    ensures r.killSwitch <==> ch[5] as int >= 1300
    ensures r.selfrightSwitch <==> ch[6] as int >= 1300
    ensures -1.0 <= r.roll <= 1.0 && -1.0 <= r.pitch <= 1.0 && -1.0 <= r.yaw <= 1.0
    ensures -1.0 <= r.throttle <= 1.0 && 0.0 <= r.weapon <= 1.0
    ensures ch[0] as int == CHANNEL_VALUE_MID ==> r.roll == 0.0
  {
    InputView(
      roll := ApplyDeadband(NormalizeChannel(ch[0] as int), cfg.inputDeadband),
      pitch := ApplyDeadband(NormalizeChannel(ch[1] as int), cfg.inputDeadband),
      yaw := ApplyDeadband(NormalizeChannel(ch[3] as int), cfg.inputDeadband),
      throttle := ApplyDeadband(NormalizeChannel(ch[2] as int), cfg.inputDeadband),
      weapon := WeaponLevel(NormalizeChannel(ch[7] as int)),
      armSwitch := DecodeSwitch(ch[4] as int) == 2,
      killSwitch := DecodeSwitch(ch[5] as int) == 2,
      selfrightSwitch := DecodeSwitch(ch[6] as int) == 2)
  }

  // ----- The frame assembler -----

  datatype SyncState = WaitingForAddress | WaitingForLength | WaitingForType | ReadingPayload | ReadingCrc

  /** The `crsf_parser` struct: sync state, the 64-byte frame buffer, the two counters and the raw channels. */
  datatype Parser = Parser(
    sync: SyncState,
    buffer: seq<bv8>,
    frameLength: u8,
    bytesReceived: u8,
    channels: seq<bv16>)

  /**
   * What the assembler knows in each state: the counters agree with the
   * bytes taken so far, and the declared length passed the sanity check.
   * In ReadingCrc a length-1 frame has still taken a type byte.
   */
  ghost predicate Valid(p: Parser) {
    && |p.buffer| == FRAME_SIZE_MAX
    && |p.channels| == Channels.NUM_CHANNELS
    && match p.sync
       case WaitingForAddress => true
       case WaitingForLength => p.bytesReceived == 1
       case WaitingForType => p.bytesReceived == 2 && 1 <= p.frameLength <= PAYLOAD_SIZE_MAX
       case ReadingPayload => 3 <= p.bytesReceived <= p.frameLength <= PAYLOAD_SIZE_MAX
       case ReadingCrc =>
         && 1 <= p.frameLength <= PAYLOAD_SIZE_MAX
         && p.bytesReceived == if p.frameLength >= 2 then p.frameLength + 1 else 3
  }

  /** The parser state `input_init` leaves, over any buffer contents. */
  ghost predicate Idle(p: Parser) {
    Valid(p) && p.sync == WaitingForAddress
  }

  /** The buffer index the next byte is stored at. */
  function WriteIndex(p: Parser): (i: nat)
    requires Valid(p)
    ensures i < FRAME_SIZE_MAX
  {
    match p.sync
    case WaitingForAddress => 0
    case WaitingForLength => 1
    case WaitingForType => 2
    case ReadingPayload => p.bytesReceived
    case ReadingCrc => p.bytesReceived
  }

  /** The result of the CRC byte: nothing yet, a rejected frame, or an accepted one. */
  datatype Outcome =
    | Pending
    | CrcMismatch
    | Accepted(frameType: bv8, frameLength: u8, payload: seq<bv8>)

  /** The bytes the CRC covers: `frame_length - 1` bytes from the type byte on. */
  function CheckedBytes(p: Parser): (s: seq<bv8>)
    requires Valid(p) && p.sync == ReadingCrc
    ensures |s| == p.frameLength as int - 1
  {
    p.buffer[2 .. p.frameLength as int + 1]
  }

  /** The payload of the frame being checked: the bytes between the type byte and the CRC byte. */
  function FramePayload(p: Parser): (s: seq<bv8>)
    requires Valid(p) && p.sync == ReadingCrc
    ensures |s| == if p.frameLength >= 2 then p.frameLength as int - 2 else 0
  {
    if p.frameLength >= 2 then p.buffer[3 .. p.frameLength as int + 1] else []
  }

  /** `handle_address_byte`: only the flight-controller address starts a frame. */
  function AddressByte(p: Parser, b: bv8): (r: Parser)
    requires Valid(p) && p.sync == WaitingForAddress
    ensures Valid(r) && r.channels == p.channels
    ensures b == ADDRESS_FLIGHT_CONTROLLER ==> r.sync == WaitingForLength && r.buffer == p.buffer[0 := b]
    ensures b != ADDRESS_FLIGHT_CONTROLLER ==> r == p
  {
    if b == ADDRESS_FLIGHT_CONTROLLER then
      p.(sync := WaitingForLength, buffer := p.buffer[0 := b], bytesReceived := 1)
    else
      p
  }

  /**
   * `handle_length_byte`: a length outside 1..62 sends the parser back to
   * address seeking (the byte is still kept as the frame length, the buffer
   * is not written); a valid one is stored at index 1.
   */
  function LengthByte(p: Parser, b: bv8): (r: Parser)
    requires Valid(p) && p.sync == WaitingForLength
    ensures Valid(r) && r.channels == p.channels && r.frameLength == b as int
    ensures 0 < b as int <= PAYLOAD_SIZE_MAX ==> r.sync == WaitingForType && r.buffer == p.buffer[1 := b]
    ensures b == 0 || b as int > PAYLOAD_SIZE_MAX ==> r.sync == WaitingForAddress && r.buffer == p.buffer
  {
    if 0 < b as int <= PAYLOAD_SIZE_MAX then
      p.(sync := WaitingForType, buffer := p.buffer[1 := b], frameLength := b as int, bytesReceived := 2)
    else
      p.(sync := WaitingForAddress, frameLength := b as int)
  }

  /** `handle_type_byte`: the type is stored at index 2; frames longer than 2 carry a payload. */
  function TypeByte(p: Parser, b: bv8): (r: Parser)
    requires Valid(p) && p.sync == WaitingForType
    ensures Valid(r) && r.channels == p.channels && r.frameLength == p.frameLength
    ensures r.buffer == p.buffer[2 := b] && r.bytesReceived == 3
    ensures r.sync == ReadingPayload <==> p.frameLength > 2
    ensures r.sync == ReadingCrc <==> p.frameLength <= 2
  {
    p.(sync := if p.frameLength > 2 then ReadingPayload else ReadingCrc,
       buffer := p.buffer[2 := b], bytesReceived := 3)
  }

  /** `handle_payload_byte`: payload bytes fill the buffer until only the CRC byte is missing. */
  function PayloadByte(p: Parser, b: bv8): (r: Parser)
    requires Valid(p) && p.sync == ReadingPayload
    ensures Valid(r) && r.channels == p.channels && r.frameLength == p.frameLength
    ensures r.buffer == p.buffer[p.bytesReceived as int := b] && r.bytesReceived == p.bytesReceived + 1
    ensures r.sync == ReadingCrc <==> r.bytesReceived == p.frameLength + 1
  {
    var n := p.bytesReceived + 1;
    p.(sync := if n >= 2 + p.frameLength - 1 then ReadingCrc else ReadingPayload,
       buffer := p.buffer[p.bytesReceived as int := b], bytesReceived := n)
  }

  /**
   * `handle_crc_byte`: the CRC byte is stored, the CRC of the type and
   * payload bytes is compared with it, a matching RC-channels frame (type
   * 0x16, length 24) is unpacked into the raw channels, and in every case the
   * parser goes back to address seeking with its byte count cleared.
   */
  function CrcByte(p: Parser, b: bv8): (r: (Parser, Outcome))
    requires Valid(p) && p.sync == ReadingCrc
    ensures Valid(r.0) && r.0.sync == WaitingForAddress && r.0.bytesReceived == 0
    ensures r.0.buffer == p.buffer[p.bytesReceived as int := b] && r.0.frameLength == p.frameLength
    ensures r.1 != Pending
    ensures r.1.Accepted? <==> Crc8.Crc8(CheckedBytes(p)) == b
    ensures r.1.Accepted? ==> r.1 == Accepted(p.buffer[2], p.frameLength, FramePayload(p))
    ensures r.0.channels != p.channels ==>
      r.1.Accepted? && r.1.frameType == FRAMETYPE_RC_CHANNELS && r.1.frameLength as int == RC_FRAME_LENGTH
    ensures r.1.Accepted? && r.1.frameType == FRAMETYPE_RC_CHANNELS && r.1.frameLength as int == RC_FRAME_LENGTH ==>
      r.0.channels == Channels.Unpacked(r.1.payload)
  {
    var buf := p.buffer[p.bytesReceived as int := b];
    var n := p.bytesReceived + 1;
    var len := p.frameLength as int;
    assert buf[2 .. 2 + len - 1] == CheckedBytes(p);
    var calculated := Crc8.Crc8(buf[2 .. 2 + len - 1]);
    var received := buf[n - 1];
    var q := p.(sync := WaitingForAddress, buffer := buf, bytesReceived := 0);
    if calculated == received then
      var frameType := buf[2];
      var payload := if len >= 2 then buf[3 .. len + 1] else [];
      assert payload == FramePayload(p);
      if frameType == FRAMETYPE_RC_CHANNELS && len == RC_FRAME_LENGTH then
        (q.(channels := Channels.Unpacked(buf[3 .. 3 + RC_CHANNELS_PAYLOAD_SIZE])), Accepted(frameType, p.frameLength, payload))
      else
        (q, Accepted(frameType, p.frameLength, payload))
    else
      (q, CrcMismatch)
  }

  /**
   * A frame whose CRC matches is described by the buffer after the CRC byte
   * is stored: the type byte at index 2, the length byte, and, for an
   * RC-channels frame of the expected length, the channels unpacked from
   * the 22 bytes at index 3.
   */
  lemma CrcByteAccepted(p: Parser, b: bv8)
    requires Valid(p) && p.sync == ReadingCrc && CrcByte(p, b).1.Accepted?
    ensures var r := CrcByte(p, b);
      && r.1.frameType == r.0.buffer[2] && r.1.frameLength == r.0.frameLength
      && r.0.channels == if r.1.frameType == FRAMETYPE_RC_CHANNELS && r.1.frameLength as int == RC_FRAME_LENGTH
                         then Channels.Unpacked(r.0.buffer[3 .. 3 + RC_CHANNELS_PAYLOAD_SIZE]) else p.channels
  {
    var r := CrcByte(p, b);
    if r.1.frameType == FRAMETYPE_RC_CHANNELS && r.1.frameLength as int == RC_FRAME_LENGTH {
      var buf := r.0.buffer;
      assert buf == p.buffer[RC_FRAME_LENGTH + 1 := b];
      assert forall i | 3 <= i < 3 + RC_CHANNELS_PAYLOAD_SIZE :: buf[i] == p.buffer[i];
      assert buf[3 .. 3 + RC_CHANNELS_PAYLOAD_SIZE] == r.1.payload;
    }
  }

  /**
   * `crsf_process_byte`: one byte through the handler of the current state.
   * Returns the new parser and what the byte completed.
   */
  function Step(p: Parser, b: bv8): (r: (Parser, Outcome))
    requires Valid(p)
    ensures Valid(r.0)
    ensures forall i | 0 <= i < FRAME_SIZE_MAX && i != WriteIndex(p) :: r.0.buffer[i] == p.buffer[i]
    ensures r.1 != Pending <==> p.sync == ReadingCrc
    ensures p.sync == ReadingCrc ==> r.0.sync == WaitingForAddress && r.0.bytesReceived == 0
    ensures r.1.Accepted? <==> p.sync == ReadingCrc && Crc8.Crc8(CheckedBytes(p)) == b
    ensures r.1.Accepted? ==> r.1 == Accepted(p.buffer[2], p.frameLength, FramePayload(p))
    ensures r.0.channels != p.channels ==>
      r.1.Accepted? && r.1.frameType == FRAMETYPE_RC_CHANNELS && r.1.frameLength as int == RC_FRAME_LENGTH
    ensures r.1.Accepted? && r.1.frameType == FRAMETYPE_RC_CHANNELS && r.1.frameLength as int == RC_FRAME_LENGTH ==>
      r.0.channels == Channels.Unpacked(r.1.payload)
  {
    match p.sync
    case WaitingForAddress => (AddressByte(p, b), Pending)
    case WaitingForLength => (LengthByte(p, b), Pending)
    case WaitingForType => (TypeByte(p, b), Pending)
    case ReadingPayload => (PayloadByte(p, b), Pending)
    case ReadingCrc => CrcByte(p, b)
  }

  /** The parser after a sequence of bytes, oldest first. */
  function Run(p: Parser, bytes: seq<bv8>): (r: Parser)
    requires Valid(p)
    ensures Valid(r)
    decreases |bytes|
  {
    if |bytes| == 0 then p else Step(Run(p, bytes[..|bytes| - 1]), bytes[|bytes| - 1]).0
  }

  lemma RunAppend(p: Parser, xs: seq<bv8>, b: bv8)
    requires Valid(p)
    ensures Run(p, xs + [b]) == Step(Run(p, xs), b).0
  {
    assert (xs + [b])[..|xs|] == xs;
  }

  /** Running two chunks one after the other is running their concatenation. */
  lemma {:induction false} RunConcat(p: Parser, xs: seq<bv8>, ys: seq<bv8>)
    requires Valid(p)
    ensures Run(p, xs + ys) == Run(Run(p, xs), ys)
    decreases |ys|
  {
    if |ys| == 0 {
      assert xs + ys == xs;
    } else {
      var front, last := ys[..|ys| - 1], ys[|ys| - 1];
      assert xs + ys == (xs + front) + [last];
      assert ys == front + [last];
      calc {
        Run(p, xs + ys);
      == { RunAppend(p, xs + front, last); }
        Step(Run(p, xs + front), last).0;
      == { RunConcat(p, xs, front); }
        Step(Run(Run(p, xs), front), last).0;
      == { RunAppend(Run(p, xs), front, last); }
        Run(Run(p, xs), ys);
      }
    }
  }

  /** While seeking an address, bytes other than 0xC8 leave the parser untouched. */
  lemma {:induction false} SkipsNoise(p: Parser, noise: seq<bv8>)
    requires Idle(p)
    requires forall i | 0 <= i < |noise| :: noise[i] != ADDRESS_FLIGHT_CONTROLLER
    ensures Run(p, noise) == p
    decreases |noise|
  {
    if |noise| > 0 {
      SkipsNoise(p, noise[..|noise| - 1]);
    }
  }

  /**
   * A well-formed frame: the address, a length byte that counts the bytes
   * after it (type, payload, CRC; at least type and CRC, at most 62), and a
   * trailing CRC-8/DVB-S2 over type and payload.
   */
  ghost predicate WellFormed(f: seq<bv8>) {
    Framed(f) && Crc8.Crc8(f[2 .. |f| - 1]) == f[|f| - 1]
  }

  /** Address and a consistent length byte, whatever the last byte is. */
  ghost predicate Framed(f: seq<bv8>) {
    && 4 <= |f| <= PAYLOAD_SIZE_MAX + 2
    && f[0] == ADDRESS_FLIGHT_CONTROLLER
    && f[1] as int == |f| - 2
  }

  /** The parser after three bytes, one step at a time. */
  lemma RunThree(p: Parser, a: bv8, b: bv8, c: bv8)
    requires Valid(p)
    ensures Run(p, [a, b, c]) == Step(Step(Step(p, a).0, b).0, c).0
  {
    assert Run(p, []) == p;
    RunAppend(p, [], a);
    assert [] + [a] == [a];
    RunAppend(p, [a], b);
    assert [a] + [b] == [a, b];
    RunAppend(p, [a, b], c);
    assert [a, b] + [c] == [a, b, c];
  }

  /** The parser state after address, length and type byte of a framed byte string (CRC not yet checked). */
  lemma FrameHeader(p: Parser, f: seq<bv8>)
    requires Idle(p) && Framed(f)
    ensures var q := Run(p, f[..3]);
      && q.frameLength as int == |f| - 2
      && q.bytesReceived == 3
      && (forall i | 0 <= i < 3 :: q.buffer[i] == f[i])
      && q.sync == (if |f| == 4 then ReadingCrc else ReadingPayload)
      && q.channels == p.channels
  {
    assert f[..3] == [f[0], f[1], f[2]];
    RunThree(p, f[0], f[1], f[2]);
    var q1 := AddressByte(p, f[0]);
    assert Step(p, f[0]).0 == q1;
    var q2 := LengthByte(q1, f[1]);
    assert Step(q1, f[1]).0 == q2;
    var q3 := TypeByte(q2, f[2]);
    assert Step(q2, f[2]).0 == q3;
  }

  /** The parser state after the first `3 + k` bytes of a framed byte string. */
  lemma {:induction false} FramePrefix(p: Parser, f: seq<bv8>, k: nat)
    requires Idle(p) && Framed(f)
    requires k <= |f| - 4
    ensures var q := Run(p, f[..3 + k]);
      && q.frameLength as int == |f| - 2
      && q.bytesReceived as int == 3 + k
      && (forall i | 0 <= i < 3 + k :: q.buffer[i] == f[i])
      && q.sync == (if k == |f| - 4 then ReadingCrc else ReadingPayload)
      && q.channels == p.channels
    decreases k
  {
    if k == 0 {
      FrameHeader(p, f);
    } else {
      FramePrefix(p, f, k - 1);
      PrefixExtends(p, f, k);
      PayloadAdvance(Run(p, f[..2 + k]), f, k);
    }
  }

  /** One more byte of the frame is one more parser step. */
  lemma PrefixExtends(p: Parser, f: seq<bv8>, k: nat)
    requires Valid(p) && 0 < k && 3 + k <= |f|
    ensures Run(p, f[..3 + k]) == Step(Run(p, f[..2 + k]), f[2 + k]).0
  {
    assert f[..3 + k] == f[..2 + k] + [f[2 + k]];
    RunAppend(p, f[..2 + k], f[2 + k]);
  }

  /** One payload byte of a framed byte string, from the state that expects it. */
  lemma PayloadAdvance(q: Parser, f: seq<bv8>, k: nat)
    requires Valid(q) && q.sync == ReadingPayload && Framed(f)
    requires 0 < k <= |f| - 4
    requires q.frameLength as int == |f| - 2 && q.bytesReceived as int == 2 + k
    requires forall i | 0 <= i < 2 + k :: q.buffer[i] == f[i]
    ensures var q' := Step(q, f[2 + k]).0;
      && q'.frameLength == q.frameLength
      && q'.bytesReceived as int == 3 + k
      && (forall i | 0 <= i < 3 + k :: q'.buffer[i] == f[i])
      && q'.sync == (if k == |f| - 4 then ReadingCrc else ReadingPayload)
      && q'.channels == q.channels
  {
    assert Step(q, f[2 + k]).0 == PayloadByte(q, f[2 + k]);
  }

  /**
   * Decoding an encoded frame: fed from address seeking, a well-formed frame
   * brings the parser to its CRC byte, and that byte is accepted with the
   * frame's own type, length and payload.
   */
  lemma AcceptsWellFormed(p: Parser, f: seq<bv8>)
    requires Idle(p) && WellFormed(f)
    ensures var q := Run(p, f[..|f| - 1]);
      && q.sync == ReadingCrc
      && Step(q, f[|f| - 1]).1 == Accepted(f[2], |f| - 2, f[3 .. |f| - 1])
      && Run(p, f).sync == WaitingForAddress
  {
    var k := |f| - 4;
    FramePrefix(p, f, k);
    assert f[..3 + k] == f[..|f| - 1];
    CrcAccepts(Run(p, f[..|f| - 1]), f);
  }

  /** The CRC byte of a well-formed frame, from the state that expects it. */
  lemma CrcAccepts(q: Parser, f: seq<bv8>)
    requires Valid(q) && q.sync == ReadingCrc && WellFormed(f)
    requires q.frameLength as int == |f| - 2 && q.bytesReceived as int == |f| - 1
    requires forall i | 0 <= i < |f| - 1 :: q.buffer[i] == f[i]
    ensures Step(q, f[|f| - 1]).1 == Accepted(f[2], |f| - 2, f[3 .. |f| - 1])
    ensures Step(q, f[|f| - 1]).0.sync == WaitingForAddress
  {
    var n := |f| - 1;
    assert q.buffer[2 .. n] == f[2 .. n] by {
      forall j | 0 <= j < n - 2 ensures q.buffer[2 .. n][j] == f[2 .. n][j] {
        assert q.buffer[2 + j] == f[2 + j];
      }
    }
    assert CheckedBytes(q) == f[2 .. n];
    assert FramePayload(q) == f[2 .. n][1..] == f[3 .. n];
  }

  /** Noise without an address byte in front of a frame does not stop it being accepted. */
  lemma AcceptsAfterNoise(p: Parser, noise: seq<bv8>, f: seq<bv8>)
    requires Idle(p) && WellFormed(f)
    requires forall i | 0 <= i < |noise| :: noise[i] != ADDRESS_FLIGHT_CONTROLLER
    ensures var q := Run(p, noise + f[..|f| - 1]);
      q.sync == ReadingCrc && Step(q, f[|f| - 1]).1 == Accepted(f[2], |f| - 2, f[3 .. |f| - 1])
  {
    RunConcat(p, noise, f[..|f| - 1]);
    SkipsNoise(p, noise);
    AcceptsWellFormed(p, f);
  }

  /**
   * A frame with length byte 1 still takes a type byte and a CRC byte, and
   * its CRC is taken over no bytes at all, so it is accepted exactly when
   * the CRC byte is 0.
   */
  lemma LengthOneFrame(p: Parser, t: bv8, c: bv8)
    requires Idle(p)
    ensures var q := Run(p, [ADDRESS_FLIGHT_CONTROLLER, 1, t]);
      q.sync == ReadingCrc && (Step(q, c).1.Accepted? <==> c == 0)
  {
    var f: seq<bv8> := [ADDRESS_FLIGHT_CONTROLLER, 1, t];
    RunAppend(p, [], f[0]);
    assert [] + [f[0]] == f[..1];
    RunAppend(p, f[..1], f[1]);
    assert f[..1] + [f[1]] == f[..2];
    RunAppend(p, f[..2], f[2]);
    assert f[..2] + [f[2]] == f;
    assert Run(p, []) == p;
    var q := Run(p, f);
    assert CheckedBytes(q) == [];
  }

  /** The frame a transmitter sends for sixteen channel values. */
  function RcChannelsFrame(ch: seq<bv16>): (f: seq<bv8>)
    requires |ch| == Channels.NUM_CHANNELS
    ensures |f| == RC_FRAME_LENGTH + 2
  {
    var body := [FRAMETYPE_RC_CHANNELS] + Channels.Pack(ch);
    [ADDRESS_FLIGHT_CONTROLLER, RC_FRAME_LENGTH as bv8] + body + [Crc8.Crc8(body)]
  }

  /**
   * Round trip through the whole decoder: an RC-channels frame carrying
   * sixteen 11-bit values, fed from address seeking, is accepted and leaves
   * exactly those values in the raw channel array.
   */
  lemma DecodesRcChannelsFrame(p: Parser, ch: seq<bv16>)
    requires Idle(p)
    requires |ch| == Channels.NUM_CHANNELS
    requires forall i | 0 <= i < Channels.NUM_CHANNELS :: ch[i] < 0x800
    ensures var f := RcChannelsFrame(ch);
      && Step(Run(p, f[..|f| - 1]), f[|f| - 1]).1.Accepted?
      && Run(p, f).channels == ch
      && Run(p, f).sync == WaitingForAddress
  {
    var f := RcChannelsFrame(ch);
    RcChannelsFrameWellFormed(ch);
    AcceptsWellFormed(p, f);
    RunAppend(p, f[..|f| - 1], f[|f| - 1]);
    assert f == f[..|f| - 1] + [f[|f| - 1]];
    Channels.UnpackOfPack(ch);
  }

  /** The frame for sixteen channel values is well formed and carries their packing. */
  lemma RcChannelsFrameWellFormed(ch: seq<bv16>)
    requires |ch| == Channels.NUM_CHANNELS
    ensures var f := RcChannelsFrame(ch);
      && WellFormed(f)
      && f[2] == FRAMETYPE_RC_CHANNELS && f[1] as int == RC_FRAME_LENGTH
      && f[3 .. |f| - 1] == Channels.Pack(ch)
  {
    var f := RcChannelsFrame(ch);
    var body := [FRAMETYPE_RC_CHANNELS] + Channels.Pack(ch);
    assert f[2 .. |f| - 1] == body;
    assert f[3 .. |f| - 1] == Channels.Pack(ch);
  }

  // ----- Effect of frames on the link state -----

  /** The fields of `g_state` that the receiver writes. */
  datatype LinkView = LinkView(input: InputView, lastPacketMs: u32, linkOk: bool, error: SystemError)

  /**
   * The rest of `handle_crc_byte`: an accepted frame of any type refreshes
   * the link; one carrying RC channels (type 0x16, length 24) also rewrites
   * the inputs from the freshly unpacked channels; a CRC mismatch only
   * submits ERR_CRSF_CRC.
   */
  function ApplyOutcome(cfg: Config, lv: LinkView, out: Outcome, channels: seq<bv16>, now: u32): (r: LinkView)
    requires cfg.Valid() && |channels| == Channels.NUM_CHANNELS
    ensures out.Pending? ==> r == lv
    ensures out.CrcMismatch? ==>
      r.error == Safety.SubmitError(lv.error, ErrCrsfCrc) && r.input == lv.input && r.linkOk == lv.linkOk && r.lastPacketMs == lv.lastPacketMs
    ensures out.Accepted? ==> r.linkOk && r.lastPacketMs == now && r.error == lv.error
    ensures r.input != lv.input ==>
      out.Accepted? && out.frameType == FRAMETYPE_RC_CHANNELS && out.frameLength as int == RC_FRAME_LENGTH && r.input == RcInputs(cfg, channels)
    ensures out.Accepted? && out.frameType == FRAMETYPE_RC_CHANNELS && out.frameLength as int == RC_FRAME_LENGTH ==>
      r.input == RcInputs(cfg, channels)
  {
    match out
    case Pending => lv
    case CrcMismatch => lv.(error := Safety.SubmitError(lv.error, ErrCrsfCrc))
    case Accepted(frameType, frameLength, _) =>
      var input := if frameType == FRAMETYPE_RC_CHANNELS && frameLength as int == RC_FRAME_LENGTH
                   then RcInputs(cfg, channels) else lv.input;
      lv.(input := input, lastPacketMs := now, linkOk := true)
  }

  /** The receiver as a whole: frame assembler plus the link fields it writes. */
  datatype Receiver = Receiver(parser: Parser, link: LinkView)

  /**
   * One byte through the receiver (`crsf_process_byte`): the assembler takes
   * one step, and bytes before the CRC byte change no field of `g_state`.
   */
  function ReceiveByte(cfg: Config, rx: Receiver, b: bv8, now: u32): (r: Receiver)
    requires cfg.Valid() && Valid(rx.parser)
    ensures r.parser == Step(rx.parser, b).0
    ensures rx.parser.sync != ReadingCrc ==> r.link == rx.link
  {
    var (p, out) := Step(rx.parser, b);
    Receiver(p, ApplyOutcome(cfg, rx.link, out, p.channels, now))
  }

  /** The drain loop of `input_update`: every available byte, oldest first, at one `millis()` reading. */
  function Receive(cfg: Config, rx: Receiver, bytes: seq<bv8>, now: u32): (r: Receiver)
    requires cfg.Valid() && Valid(rx.parser)
    ensures r.parser == Run(rx.parser, bytes)
    decreases |bytes|
  {
    if |bytes| == 0 then rx
    else ReceiveByte(cfg, Receive(cfg, rx, bytes[..|bytes| - 1], now), bytes[|bytes| - 1], now)
  }

  /**
   * Errors are sticky across any byte stream: an error already recorded
   * survives every frame, valid or not, and a clear register can only take
   * ERR_CRSF_CRC.
   */
  lemma {:induction false} ReceiveKeepsError(cfg: Config, rx: Receiver, bytes: seq<bv8>, now: u32)
    requires cfg.Valid() && Valid(rx.parser)
    ensures rx.link.error != ErrNone ==> Receive(cfg, rx, bytes, now).link.error == rx.link.error
    ensures Receive(cfg, rx, bytes, now).link.error in {rx.link.error, ErrCrsfCrc}
    decreases |bytes|
  {
    if |bytes| > 0 {
      ReceiveKeepsError(cfg, rx, bytes[..|bytes| - 1], now);
    }
  }

  /** Receiving the bytes of a frame before its CRC byte changes no link field. */
  lemma {:induction false} FramePrefixKeepsLink(cfg: Config, rx: Receiver, f: seq<bv8>, k: nat, now: u32)
    requires cfg.Valid() && Idle(rx.parser) && Framed(f)
    requires k <= |f| - 4
    ensures Receive(cfg, rx, f[..3 + k], now).link == rx.link
    decreases k
  {
    var p := rx.parser;
    if k == 0 {
      HeaderKeepsLink(cfg, rx, f, now);
    } else {
      FramePrefixKeepsLink(cfg, rx, f, k - 1, now);
      FramePrefix(p, f, k - 1);
      ReceiveExtends(cfg, rx, f, 3 + k, now);
    }
  }

  /** The address byte leaves the link view alone and the length byte is awaited. */
  lemma AddressKeepsLink(cfg: Config, rx: Receiver, f: seq<bv8>, now: u32)
    requires cfg.Valid() && Idle(rx.parser) && Framed(f)
    ensures var r := Receive(cfg, rx, f[..1], now);
      r.link == rx.link && r.parser.sync == WaitingForLength
  {
    ReceiveExtends(cfg, rx, f, 1, now);
    assert f[..0] == [];
  }

  /** So does the length byte, and the type byte is awaited. */
  lemma LengthKeepsLink(cfg: Config, rx: Receiver, f: seq<bv8>, now: u32)
    requires cfg.Valid() && Idle(rx.parser) && Framed(f)
    ensures var r := Receive(cfg, rx, f[..2], now);
      r.link == rx.link && r.parser.sync == WaitingForType
  {
    AddressKeepsLink(cfg, rx, f, now);
    ReceiveExtends(cfg, rx, f, 2, now);
  }

  /** Address, length and type byte leave the link view alone. */
  lemma HeaderKeepsLink(cfg: Config, rx: Receiver, f: seq<bv8>, now: u32)
    requires cfg.Valid() && Idle(rx.parser) && Framed(f)
    ensures Receive(cfg, rx, f[..3], now).link == rx.link
  {
    LengthKeepsLink(cfg, rx, f, now);
    ReceiveExtends(cfg, rx, f, 3, now);
  }

  /** Receiving the first `n` bytes is receiving the first `n - 1` and then one more. */
  lemma ReceiveExtends(cfg: Config, rx: Receiver, f: seq<bv8>, n: nat, now: u32)
    requires cfg.Valid() && Valid(rx.parser) && 0 < n <= |f|
    ensures Receive(cfg, rx, f[..n], now) == ReceiveByte(cfg, Receive(cfg, rx, f[..n - 1], now), f[n - 1], now)
  {
    assert f[..n][..n - 1] == f[..n - 1];
  }

  /**
   * A valid RC-channels frame received from address seeking brings the link
   * up, stamps it with the current time, sets the inputs from the encoded
   * channels and leaves the error register alone.
   */
  lemma ReceivesRcChannelsFrame(cfg: Config, rx: Receiver, ch: seq<bv16>, now: u32)
    requires cfg.Valid() && Idle(rx.parser)
    requires |ch| == Channels.NUM_CHANNELS
    requires forall i | 0 <= i < Channels.NUM_CHANNELS :: ch[i] < 0x800
    ensures var r := Receive(cfg, rx, RcChannelsFrame(ch), now);
      && r.link.linkOk && r.link.lastPacketMs == now
      && r.link.input == RcInputs(cfg, ch)
      && r.link.error == rx.link.error
  {
    var f := RcChannelsFrame(ch);
    RcChannelsFrameWellFormed(ch);
    ReceivesWellFormed(cfg, rx, f, now);
    DecodesRcChannelsFrame(rx.parser, ch);
  }

  /**
   * A well-formed frame received from address seeking changes the link
   * fields exactly as its accepted outcome says, and nothing before its CRC
   * byte does.
   */
  lemma ReceivesWellFormed(cfg: Config, rx: Receiver, f: seq<bv8>, now: u32)
    requires cfg.Valid() && Idle(rx.parser) && WellFormed(f)
    ensures var r := Receive(cfg, rx, f, now);
      r.link == ApplyOutcome(cfg, rx.link, Accepted(f[2], |f| - 2, f[3 .. |f| - 1]), r.parser.channels, now)
  {
    var k := |f| - 4;
    FramePrefixKeepsLink(cfg, rx, f, k, now);
    assert f[..3 + k] == f[..|f| - 1];
    AcceptsWellFormed(rx.parser, f);
  }

  // ----- Link timeout -----

  /**
   * The link monitor of `input_update`: when more than the timeout has
   * passed since the last valid frame (in wrapping 32-bit milliseconds), the
   * link is down, ERR_CRSF_TIMEOUT is submitted and every input is forced
   * to neutral; otherwise nothing changes.
   */
  function LinkTimeout(timeoutMs: u32, lv: LinkView, now: u32): (r: LinkView)
    ensures Elapsed(now, lv.lastPacketMs) > timeoutMs ==>
      && !r.linkOk
      && r.error == Safety.SubmitError(lv.error, ErrCrsfTimeout)
      && r.input == NEUTRAL_INPUT
      && r.lastPacketMs == lv.lastPacketMs
    ensures Elapsed(now, lv.lastPacketMs) <= timeoutMs ==> r == lv
  {
    if Elapsed(now, lv.lastPacketMs) > timeoutMs then
      lv.(linkOk := false, error := Safety.SubmitError(lv.error, ErrCrsfTimeout), input := NEUTRAL_INPUT)
    else lv
  }

  /**
   * Link recovery does not clear the timeout error: after the failsafe
   * fires on a clear register, a later valid frame brings the link back,
   * and the register still holds ERR_CRSF_TIMEOUT.
   */
  lemma RecoveryKeepsTimeoutError(cfg: Config, lv: LinkView, now: u32, later: u32, out: Outcome, ch: seq<bv16>)
    requires cfg.Valid() && |ch| == Channels.NUM_CHANNELS
    requires lv.error == ErrNone && Elapsed(now, lv.lastPacketMs) > cfg.linkTimeoutMs
    requires out.Accepted?
    ensures var lost := LinkTimeout(cfg.linkTimeoutMs, lv, now);
      var back := ApplyOutcome(cfg, lost, out, ch, later);
      !lost.linkOk && back.linkOk && lost.error == ErrCrsfTimeout && back.error == ErrCrsfTimeout
  {
  }
}
