// Battery-sensor telemetry sent back to the transmitter (src/input.cpp): the
// frame layout, the free-RAM percentage that stands in for the battery
// level, and the 1 Hz rate limiter of `input_update_telemetry`. The serial
// write is the byte sequence the methods return.
//
// The firmware writes 11 into the frame's length byte, while only 10 bytes
// (type, 8 payload bytes, CRC) follow it. A receiver that reads frames the
// way this firmware's own parser does takes the real CRC for a payload byte
// and the first byte after the frame for the CRC, and accepts the frame only
// if that stray byte happens to be 0x00 (`AsWrittenFrameNeedsStrayZero`).
// `BatteryFrame` carries the length 10 and is accepted on its own
// (`BatteryFrameAccepted`); the sender uses it.

module Telemetry {
  import opened Types
  import Crc8
  import Crsf

  /** Nominal 2S LiPo voltage in decivolts, reported when no battery monitor pin is configured. */
  const NOMINAL_VOLTAGE_DV: bv16 := 74
  /** Length byte as the firmware writes it. */
  const FRAME_LENGTH_AS_WRITTEN: bv8 := 11
  /** Bytes after the length byte: type, 8 payload bytes, CRC. */
  const FRAME_LENGTH: bv8 := 10
  /** SRAM size of the target in bytes, the divisor of the percentage. */
  const SRAM_BYTES: int := 2048

  /** C `/` on integers: truncates toward zero. */
  function TruncDiv(a: int, b: int): (q: int)
    requires b > 0
    ensures a >= 0 ==> q == a / b
    ensures a < 0 ==> q == -((-a) / b)
    ensures q * b <= a < q * b + b || q * b - b < a <= q * b
  {
    if a >= 0 then a / b else -((-a) / b)
  }

  /**
   * The battery-remaining field: free RAM as a percentage of the 2048-byte
   * SRAM, truncated, cast to uint8_t (wrapping modulo 256) and clamped to
   * 100.
   */
  function RamPercent(freeRam: i16): (r: u8)
    ensures r <= 100
    ensures 0 <= freeRam <= SRAM_BYTES ==> r == freeRam * 100 / SRAM_BYTES
  {
    var percent := TruncDiv(freeRam * 100, SRAM_BYTES) % 0x100;
    if percent > 100 then 100 else percent
  }

  /** High and low byte of a 16-bit value. */
  function HighByte(v: bv16): bv8 { ((v >> 8) & 0xFF) as bv8 }
  function LowByte(v: bv16): bv8 { (v & 0xFF) as bv8 }

  /**
   * The 8-byte battery-sensor payload: voltage and current as big-endian
   * uint16, capacity as big-endian uint24 (carrying the error code), and the
   * remaining percentage.
   */
  function BatteryPayload(error: SystemError, ramPercent: u8): (p: seq<bv8>)
    ensures |p| == 8
  {
    var code := error.Code() as bv16;
    [HighByte(NOMINAL_VOLTAGE_DV), LowByte(NOMINAL_VOLTAGE_DV),
     0x00, 0x00,
     0x00, HighByte(code), LowByte(code),
     ramPercent as bv8]
  }

  /** The fields a telemetry receiver reads back out of the payload. */
  datatype BatteryReport = BatteryReport(voltageDv: bv16, currentDa: bv16, capacity: bv32, remaining: bv8)

  /** A big-endian unsigned field of two or three bytes. */
  function BigEndian16(hi: bv8, lo: bv8): (v: bv16)
    ensures v >> 8 == hi as bv16 && v & 0xFF == lo as bv16
  {
    (hi as bv16 << 8) | lo as bv16
  }

  function BigEndian24(hi: bv8, mid: bv8, lo: bv8): (v: bv32)
    ensures v < 0x100_0000
    ensures v >> 16 == hi as bv32 && v & 0xFFFF == BigEndian16(mid, lo) as bv32
  {
    (hi as bv32 << 16) | BigEndian16(mid, lo) as bv32
  }

  /** Splitting a 16-bit value into high and low byte loses nothing. */
  lemma SplitBytes(v: bv16)
    ensures BigEndian16(HighByte(v), LowByte(v)) == v
  {
  }

  /** How a receiver reads the 8-byte payload: three big-endian fields and the remaining-percentage byte. */
  function DecodeBatteryPayload(p: seq<bv8>): (r: BatteryReport)
    requires |p| == 8
  {
    BatteryReport(BigEndian16(p[0], p[1]), BigEndian16(p[2], p[3]), BigEndian24(p[4], p[5], p[6]), p[7])
  }

  /**
   * What the transmitter reads back: 7.4 V, no current, the error code in
   * the capacity field and the RAM percentage in the remaining field.
   */
  lemma DecodeBatteryPayloadRoundTrip(error: SystemError, ramPercent: u8)
    ensures DecodeBatteryPayload(BatteryPayload(error, ramPercent))
         == BatteryReport(NOMINAL_VOLTAGE_DV, 0, error.Code() as bv32, ramPercent as bv8)
  {
    SplitBytes(NOMINAL_VOLTAGE_DV);
    var code := error.Code() as bv16;
    SplitBytes(code);
    assert BigEndian24(0, HighByte(code), LowByte(code)) == code as bv32;
  }

  /** The frame with a given length byte: address, length, type 0x08, payload, CRC over type and payload. */
  function BatteryFrameWithLength(lengthByte: bv8, error: SystemError, ramPercent: u8): (f: seq<bv8>)
    ensures |f| == 12
  {
    var body := [Crsf.FRAMETYPE_BATTERY_SENSOR] + BatteryPayload(error, ramPercent);
    [Crsf.ADDRESS_FLIGHT_CONTROLLER, lengthByte] + body + [Crc8.Crc8(body)]
  }

  /** `crsf_send_battery_telemetry` as written: length byte 11. */
  function BatteryFrameAsWritten(error: SystemError, ramPercent: u8): (f: seq<bv8>)
    ensures |f| == 12 && f[1] as int == |f| - 1
  {
    BatteryFrameWithLength(FRAME_LENGTH_AS_WRITTEN, error, ramPercent)
  }

  /** The battery frame with the length byte counting the bytes that follow it. */
  function BatteryFrame(error: SystemError, ramPercent: u8): (f: seq<bv8>)
    ensures |f| == 12 && f[1] as int == |f| - 2
  {
    BatteryFrameWithLength(FRAME_LENGTH, error, ramPercent)
  }

  /** Header, type and payload followed by the CRC over type and payload make the battery frame. */
  lemma BatteryFrameFromParts(prefix: seq<bv8>, crc: bv8, error: SystemError, ramPercent: u8)
    requires prefix == [Crsf.ADDRESS_FLIGHT_CONTROLLER, FRAME_LENGTH, Crsf.FRAMETYPE_BATTERY_SENSOR] + BatteryPayload(error, ramPercent)
    requires crc == Crc8.Crc8(prefix[2..])
    ensures prefix + [crc] == BatteryFrame(error, ramPercent)
  {
    var body := [Crsf.FRAMETYPE_BATTERY_SENSOR] + BatteryPayload(error, ramPercent);
    assert prefix[2..] == body;
    assert prefix == [Crsf.ADDRESS_FLIGHT_CONTROLLER, FRAME_LENGTH] + body;
  }

  /** Appending its own CRC-8 to a message gives a message whose CRC is 0. */
  lemma CrcOfSelfChecked(data: seq<bv8>)
    ensures Crc8.Crc8(data + [Crc8.Crc8(data)]) == 0
  {
    Crc8.Crc8Append(data, Crc8.Crc8(data));
    assert Crc8.BitwiseStep(0) == 0;
  }

  /**
   * The frame as written, fed from address seeking: after all twelve of its
   * bytes the parser still waits for a CRC byte, and the byte that arrives
   * next is accepted as that CRC only when it is 0x00; any other byte (such
   * as the 0xC8 that starts the next frame) is a CRC mismatch.
   */
  lemma AsWrittenFrameNeedsStrayZero(p: Crsf.Parser, error: SystemError, ramPercent: u8, next: bv8)
    requires Crsf.Idle(p)
    ensures var f := BatteryFrameAsWritten(error, ramPercent);
      && Crsf.Run(p, f).sync == Crsf.ReadingCrc
      && (Crsf.Step(Crsf.Run(p, f), next).1.Accepted? <==> next == 0)
      && (next == Crsf.ADDRESS_FLIGHT_CONTROLLER ==> Crsf.Step(Crsf.Run(p, f), next).1 == Crsf.CrcMismatch)
  {
    var f := BatteryFrameAsWritten(error, ramPercent);
    var body := [Crsf.FRAMETYPE_BATTERY_SENSOR] + BatteryPayload(error, ramPercent);
    var c := Crc8.Crc8(body);
    assert f == [Crsf.ADDRESS_FLIGHT_CONTROLLER, FRAME_LENGTH_AS_WRITTEN] + body + [c];
    ElevenCountsTwelve(p, f, next);
    assert f[2..12] == body + [c];
    CrcOfSelfChecked(body);
  }

  /**
   * Twelve bytes after an address whose length byte says 11 leave the
   * parser waiting for the CRC byte, with the CRC to cover all ten bytes
   * from the type byte on.
   */
  lemma ElevenCountsTwelve(p: Crsf.Parser, f: seq<bv8>, next: bv8)
    requires Crsf.Idle(p)
    requires |f| == 12 && f[0] == Crsf.ADDRESS_FLIGHT_CONTROLLER && f[1] == 11
    ensures var q := Crsf.Run(p, f);
      q.sync == Crsf.ReadingCrc && Crsf.CheckedBytes(q) == f[2..12]
  {
    var g := f + [next];
    assert Crsf.Framed(g);
    Crsf.FramePrefix(p, g, 9);
    assert g[..12] == f;
  }

  /** The corrected frame is well formed, so a receiver accepts it on its own, with its type and payload. */
  lemma BatteryFrameAccepted(p: Crsf.Parser, error: SystemError, ramPercent: u8)
    requires Crsf.Idle(p)
    ensures var f := BatteryFrame(error, ramPercent);
      && Crsf.Run(p, f[..11]).sync == Crsf.ReadingCrc
      && Crsf.Step(Crsf.Run(p, f[..11]), f[11]).1
         == Crsf.Accepted(Crsf.FRAMETYPE_BATTERY_SENSOR, 10, BatteryPayload(error, ramPercent))
  {
    var f := BatteryFrame(error, ramPercent);
    var body := [Crsf.FRAMETYPE_BATTERY_SENSOR] + BatteryPayload(error, ramPercent);
    assert f[2..11] == body;
    assert f[3..11] == BatteryPayload(error, ramPercent);
    assert Crsf.WellFormed(f);
    Crsf.AcceptsWellFormed(p, f);
  }

  /** The state `input_update_telemetry` keeps between calls. */
  class TelemetrySender {
    const cfg: Config
    var lastTelemetryMs: u32

    constructor (cfg: Config)
      ensures this.cfg == cfg && lastTelemetryMs == 0
    {
      this.cfg := cfg;
      lastTelemetryMs := 0;
    }

    /**
     * `crsf_send_battery_telemetry`: the packet is assembled byte by byte
     * in a 16-byte buffer and the CRC is computed over type and payload.
     */
    static method SendBatteryTelemetry(error: SystemError, freeRam: i16) returns (sent: seq<bv8>)
      ensures sent == BatteryFrame(error, RamPercent(freeRam))
    {
      var packet := new bv8[16];
      var idx := 0;
      packet[idx] := Crsf.ADDRESS_FLIGHT_CONTROLLER; idx := idx + 1;
      packet[idx] := FRAME_LENGTH; idx := idx + 1;
      packet[idx] := Crsf.FRAMETYPE_BATTERY_SENSOR; idx := idx + 1;
      var ramPercent := RamPercent(freeRam);
      ghost var head := packet[..3];
      assert head == [Crsf.ADDRESS_FLIGHT_CONTROLLER, FRAME_LENGTH, Crsf.FRAMETYPE_BATTERY_SENSOR];
      idx := WriteBatteryPayload(packet, idx, error, ramPercent);
      ghost var prefix := packet[..11];
      assert prefix == head + BatteryPayload(error, ramPercent) by {
        assert prefix[..3] == head && prefix[3..] == packet[3..11];
      }
      var crc := Crc8.ComputeCrc8(packet, 2, idx - 2);
      assert packet[2..11] == prefix[2..];
      packet[idx] := crc; idx := idx + 1;
      sent := packet[..idx];
      assert sent == prefix + [crc] by {
        assert sent[..11] == prefix;
      }
      BatteryFrameFromParts(prefix, crc, error, ramPercent);
    }

    /** The eight payload bytes of the battery frame, written from index `idx` on. */
    static method WriteBatteryPayload(packet: array<bv8>, idx: nat, error: SystemError, ramPercent: u8) returns (next: nat)
      requires idx + 8 <= packet.Length
      modifies packet
      ensures next == idx + 8
      ensures packet[idx .. next] == BatteryPayload(error, ramPercent)
      ensures packet[..idx] == old(packet[..idx])
    {
      next := idx;
      var voltageDv := NOMINAL_VOLTAGE_DV;
      packet[next] := HighByte(voltageDv); next := next + 1;
      packet[next] := LowByte(voltageDv); next := next + 1;
      packet[next] := 0x00; next := next + 1;
      packet[next] := 0x00; next := next + 1;
      var errorCode := error.Code() as bv16;
      packet[next] := 0x00; next := next + 1;
      packet[next] := HighByte(errorCode); next := next + 1;
      packet[next] := LowByte(errorCode); next := next + 1;
      packet[next] := ramPercent as bv8; next := next + 1;
    }

    /** `input_update_telemetry`: at most one frame per telemetry period, in wrapping milliseconds. */
    method UpdateTelemetry(now: u32, error: SystemError, freeRam: i16) returns (sent: seq<bv8>)
      modifies this`lastTelemetryMs
      ensures Elapsed(now, old(lastTelemetryMs)) >= cfg.telemetryUpdateMs ==>
        lastTelemetryMs == now && sent == BatteryFrame(error, RamPercent(freeRam))
      ensures Elapsed(now, old(lastTelemetryMs)) < cfg.telemetryUpdateMs ==>
        lastTelemetryMs == old(lastTelemetryMs) && sent == []
    {
      sent := [];
      if Elapsed(now, lastTelemetryMs) >= cfg.telemetryUpdateMs {
        lastTelemetryMs := now;
        sent := SendBatteryTelemetry(error, freeRam);
      }
    }
  }
}
