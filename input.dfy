// The CRSF receiver as the firmware runs it (src/input.cpp): the parser
// struct with its 64-byte frame buffer and 16-entry raw channel array, the
// per-state byte handlers that update them in place, and `input_update`,
// which drains the serial bytes and then runs the link-timeout failsafe on
// `g_state`. Every method is proved to follow the pure model in module Crsf.
// The serial port is the byte sequence handed to `Update`; `millis()` is the
// `now` parameter.

module Input {
  import opened Types
  import opened State
  import Safety
  import Crc8
  import Channels
  import Crsf

  /** The input fields of `g_state` as a value. */
  function InputOf(g: RuntimeState): (v: Crsf.InputView)
    reads g
    ensures v.armSwitch == g.armSwitch && v.killSwitch == g.killSwitch && v.selfrightSwitch == g.selfrightSwitch
  {
    Crsf.InputView(g.roll, g.pitch, g.yaw, g.throttle, g.weapon, g.armSwitch, g.killSwitch, g.selfrightSwitch)
  }

  /** Every field of `g_state` the receiver writes, as a value. */
  function LinkOf(g: RuntimeState): (v: Crsf.LinkView)
    reads g
    ensures v.input == InputOf(g) && v.linkOk == g.linkOk && v.error == g.error && v.lastPacketMs == g.lastPacketMs
  {
    Crsf.LinkView(InputOf(g), g.lastPacketMs, g.linkOk, g.error)
  }

  /** Writes an input view into `g_state`. */
  method SetInputs(g: RuntimeState, v: Crsf.InputView)
    modifies g`roll, g`pitch, g`yaw, g`throttle, g`weapon, g`armSwitch, g`killSwitch, g`selfrightSwitch
    ensures InputOf(g) == v
  {
    g.roll, g.pitch, g.yaw, g.throttle, g.weapon := v.roll, v.pitch, v.yaw, v.throttle, v.weapon;
    g.armSwitch, g.killSwitch, g.selfrightSwitch := v.armSwitch, v.killSwitch, v.selfrightSwitch;
  }

  /** The `crsf_parser` struct. */
  class CrsfReceiver {
    const cfg: Config
    const frameBuffer: array<bv8>
    const channelsRaw: array<bv16>
    var syncState: Crsf.SyncState
    var frameLength: u8
    var bytesReceived: u8

    /** The parser as a value. */
    function Model(): (p: Crsf.Parser)
      reads this, frameBuffer, channelsRaw
      ensures p.sync == syncState && p.frameLength == frameLength && p.bytesReceived == bytesReceived
      ensures p.buffer == frameBuffer[..] && p.channels == channelsRaw[..]
    {
      Crsf.Parser(syncState, frameBuffer[..], frameLength, bytesReceived, channelsRaw[..])
    }

    /** The receiver as a value: the parser together with the fields of `g_state` it writes. */
    function Rx(g: RuntimeState): (r: Crsf.Receiver)
      reads this, frameBuffer, channelsRaw, g
      ensures r.parser == Model() && r.link == LinkOf(g)
    {
      Crsf.Receiver(Model(), LinkOf(g))
    }

    ghost predicate Valid()
      reads this, frameBuffer, channelsRaw
    {
      && cfg.Valid()
      && frameBuffer.Length == Crsf.FRAME_SIZE_MAX
      && channelsRaw.Length == Channels.NUM_CHANNELS
      && Crsf.Valid(Model())
    }

    /** The zero-initialised static struct. */
    constructor (cfg: Config)
      requires cfg.Valid()
      ensures Valid() && this.cfg == cfg
      ensures fresh(frameBuffer) && fresh(channelsRaw)
      ensures syncState == Crsf.WaitingForAddress && frameLength == 0 && bytesReceived == 0
      ensures forall i | 0 <= i < Crsf.FRAME_SIZE_MAX :: frameBuffer[i] == 0
      ensures forall i | 0 <= i < Channels.NUM_CHANNELS :: channelsRaw[i] == 0
    {
      this.cfg := cfg;
      frameBuffer := new bv8[Crsf.FRAME_SIZE_MAX](_ => 0);
      channelsRaw := new bv16[Channels.NUM_CHANNELS](_ => 0);
      syncState := Crsf.WaitingForAddress;
      frameLength, bytesReceived := 0, 0;
    }

    /**
     * `input_init`: the parser seeks an address with cleared counters, the
     * inputs are neutral, the link is down and its timer starts now.
     */
    method Init(g: RuntimeState, now: u32)
      requires Valid()
      modifies this`syncState, this`frameLength, this`bytesReceived
      modifies g`roll, g`pitch, g`yaw, g`throttle, g`weapon, g`armSwitch, g`killSwitch, g`selfrightSwitch
      modifies g`lastPacketMs, g`linkOk
      ensures Valid()
      ensures Model() == old(Model()).(sync := Crsf.WaitingForAddress, frameLength := 0, bytesReceived := 0)
      ensures LinkOf(g) == Crsf.LinkView(Crsf.NEUTRAL_INPUT, now, false, old(g.error))
    {
      syncState := Crsf.WaitingForAddress;
      frameLength := 0;
      bytesReceived := 0;
      SetInputs(g, Crsf.NEUTRAL_INPUT);
      g.lastPacketMs := now;
      g.linkOk := false;
    }

    /** `handle_address_byte`. */
    method HandleAddressByte(b: bv8)
      requires Valid() && syncState == Crsf.WaitingForAddress
      modifies this`syncState, this`bytesReceived, frameBuffer
      ensures Valid() && Model() == Crsf.AddressByte(old(Model()), b)
    {
      if b == Crsf.ADDRESS_FLIGHT_CONTROLLER {
        frameBuffer[0] := b;
        bytesReceived := 1;
        syncState := Crsf.WaitingForLength;
      }
    }

    /** `handle_length_byte`. */
    method HandleLengthByte(b: bv8)
      requires Valid() && syncState == Crsf.WaitingForLength
      modifies this`syncState, this`frameLength, this`bytesReceived, frameBuffer
      ensures Valid() && Model() == Crsf.LengthByte(old(Model()), b)
    {
      frameLength := b as int;
      if frameLength > 0 && frameLength <= Crsf.PAYLOAD_SIZE_MAX {
        frameBuffer[1] := b;
        bytesReceived := 2;
        syncState := Crsf.WaitingForType;
      } else {
        syncState := Crsf.WaitingForAddress;
      }
    }

    /** `handle_type_byte`. */
    method HandleTypeByte(b: bv8)
      requires Valid() && syncState == Crsf.WaitingForType
      modifies this`syncState, this`bytesReceived, frameBuffer
      ensures Valid() && Model() == Crsf.TypeByte(old(Model()), b)
    {
      frameBuffer[2] := b;
      bytesReceived := 3;
      if frameLength > 2 {
        syncState := Crsf.ReadingPayload;
      } else {
        syncState := Crsf.ReadingCrc;
      }
    }

    /** `handle_payload_byte`. */
    method HandlePayloadByte(b: bv8)
      requires Valid() && syncState == Crsf.ReadingPayload
      modifies this`syncState, this`bytesReceived, frameBuffer
      ensures Valid() && Model() == Crsf.PayloadByte(old(Model()), b)
    {
      frameBuffer[bytesReceived] := b;
      bytesReceived := bytesReceived + 1;
      if bytesReceived >= 2 + frameLength - 1 {
        syncState := Crsf.ReadingCrc;
      }
    }

    /**
     * `process_rc_channels_frame`: unpacks the 22 payload bytes at index 3
     * into the raw channels and sets every input from them.
     */
    method ProcessRcChannelsFrame(g: RuntimeState)
      requires cfg.Valid()
      requires frameBuffer.Length == Crsf.FRAME_SIZE_MAX && channelsRaw.Length == Channels.NUM_CHANNELS
      modifies channelsRaw
      modifies g`roll, g`pitch, g`yaw, g`throttle, g`weapon, g`armSwitch, g`killSwitch, g`selfrightSwitch
      ensures channelsRaw[..] == Channels.Unpacked(frameBuffer[3 .. 3 + Crsf.RC_CHANNELS_PAYLOAD_SIZE])
      ensures InputOf(g) == Crsf.RcInputs(cfg, channelsRaw[..])
    {
      Channels.UnpackChannels(frameBuffer, 3, channelsRaw);
      SetInputsFromChannels(g);
    }

    /** The second half of `process_rc_channels_frame`: every input from the raw channels. */
    method SetInputsFromChannels(g: RuntimeState)
      requires cfg.Valid() && channelsRaw.Length == Channels.NUM_CHANNELS
      modifies g`roll, g`pitch, g`yaw, g`throttle, g`weapon, g`armSwitch, g`killSwitch, g`selfrightSwitch
      ensures InputOf(g) == Crsf.RcInputs(cfg, channelsRaw[..])
    {
      var rollRaw := Crsf.NormalizeChannel(channelsRaw[0] as int);
      var pitchRaw := Crsf.NormalizeChannel(channelsRaw[1] as int);
      var yawRaw := Crsf.NormalizeChannel(channelsRaw[3] as int);
      var weaponRaw := Crsf.NormalizeChannel(channelsRaw[7] as int);
      g.roll := Crsf.ApplyDeadband(rollRaw, cfg.inputDeadband);
      g.pitch := Crsf.ApplyDeadband(pitchRaw, cfg.inputDeadband);
      g.yaw := Crsf.ApplyDeadband(yawRaw, cfg.inputDeadband);
      g.weapon := Crsf.WeaponLevel(weaponRaw);
      g.throttle := Crsf.ApplyDeadband(Crsf.NormalizeChannel(channelsRaw[2] as int), cfg.inputDeadband);
      g.armSwitch := Crsf.DecodeSwitch(channelsRaw[4] as int) == 2;
      g.killSwitch := Crsf.DecodeSwitch(channelsRaw[5] as int) == 2;
      g.selfrightSwitch := Crsf.DecodeSwitch(channelsRaw[6] as int) == 2;
    }

    /**
     * The valid-CRC branch of `handle_crc_byte`: an RC-channels frame of the
     * expected length is processed, and any valid frame refreshes the link.
     */
    method AcceptFrame(g: RuntimeState, now: u32, ghost payload: seq<bv8>)
      requires cfg.Valid()
      requires frameBuffer.Length == Crsf.FRAME_SIZE_MAX && channelsRaw.Length == Channels.NUM_CHANNELS
      modifies channelsRaw
      modifies g`roll, g`pitch, g`yaw, g`throttle, g`weapon, g`armSwitch, g`killSwitch, g`selfrightSwitch
      modifies g`lastPacketMs, g`linkOk
      ensures channelsRaw[..] ==
        if frameBuffer[2] == Crsf.FRAMETYPE_RC_CHANNELS && frameLength as int == Crsf.RC_FRAME_LENGTH
        then Channels.Unpacked(frameBuffer[3 .. 3 + Crsf.RC_CHANNELS_PAYLOAD_SIZE]) else old(channelsRaw[..])
      ensures LinkOf(g) == Crsf.ApplyOutcome(cfg, old(LinkOf(g)), Crsf.Accepted(frameBuffer[2], frameLength, payload), channelsRaw[..], now)
    {
      ghost var lv := LinkOf(g);
      ProcessIfRcChannels(g);
      g.lastPacketMs := now;
      g.linkOk := true;
      assert LinkOf(g) == lv.(input := InputOf(g), lastPacketMs := now, linkOk := true);
    }

    /** The frame-type and length test in front of `process_rc_channels_frame`. */
    method ProcessIfRcChannels(g: RuntimeState)
      requires cfg.Valid()
      requires frameBuffer.Length == Crsf.FRAME_SIZE_MAX && channelsRaw.Length == Channels.NUM_CHANNELS
      modifies channelsRaw
      modifies g`roll, g`pitch, g`yaw, g`throttle, g`weapon, g`armSwitch, g`killSwitch, g`selfrightSwitch
      ensures var rc := frameBuffer[2] == Crsf.FRAMETYPE_RC_CHANNELS && frameLength as int == Crsf.RC_FRAME_LENGTH;
        && channelsRaw[..] == (if rc then Channels.Unpacked(frameBuffer[3 .. 3 + Crsf.RC_CHANNELS_PAYLOAD_SIZE]) else old(channelsRaw[..]))
        && InputOf(g) == (if rc then Crsf.RcInputs(cfg, channelsRaw[..]) else old(InputOf(g)))
    {
      var frameType := frameBuffer[2];
      if frameType == Crsf.FRAMETYPE_RC_CHANNELS {
        var expectedFrameLength := 1 + Crsf.RC_CHANNELS_PAYLOAD_SIZE + 1;
        if frameLength == expectedFrameLength {
          ProcessRcChannelsFrame(g);
        }
      }
    }

    /** Store the CRC byte and compute the CRC over type and payload. */
    method StoreCrcByte(b: bv8) returns (calculated: bv8, received: bv8)
      requires Valid() && syncState == Crsf.ReadingCrc
      modifies this`bytesReceived, frameBuffer
      ensures frameBuffer[..] == Crsf.CrcByte(old(Model()), b).0.buffer
      ensures bytesReceived == old(bytesReceived) + 1
      ensures calculated == received <==> Crsf.CrcByte(old(Model()), b).1.Accepted?
    {
      ghost var p0 := Model();
      frameBuffer[bytesReceived] := b;
      bytesReceived := bytesReceived + 1;
      var crcLength := frameLength - 1;
      calculated := Crc8.ComputeCrc8(frameBuffer, 2, crcLength);
      received := frameBuffer[bytesReceived - 1];
      assert frameBuffer[2 .. 2 + crcLength] == Crsf.CheckedBytes(p0);
    }

    /**
     * `handle_crc_byte`: store the byte, accept the frame or record a CRC
     * error (first error wins), and return to address seeking.
     */
    method HandleCrcByte(g: RuntimeState, b: bv8, now: u32)
      requires Valid() && syncState == Crsf.ReadingCrc
      modifies this`syncState, this`bytesReceived, frameBuffer, channelsRaw
      modifies g`roll, g`pitch, g`yaw, g`throttle, g`weapon, g`armSwitch, g`killSwitch, g`selfrightSwitch
      modifies g`lastPacketMs, g`linkOk, g`error
      ensures Valid()
      ensures var r := Crsf.CrcByte(old(Model()), b);
        Model() == r.0 && LinkOf(g) == Crsf.ApplyOutcome(cfg, old(LinkOf(g)), r.1, r.0.channels, now)
    {
      ghost var p0 := Model();
      ghost var r := Crsf.CrcByte(p0, b);
      var calculated, received := StoreCrcByte(b);
      if calculated == received {
        Crsf.CrcByteAccepted(p0, b);
        AcceptFrame(g, now, r.1.payload);
      } else {
        Safety.SetError(g, ErrCrsfCrc);
      }
      syncState := Crsf.WaitingForAddress;
      bytesReceived := 0;
      assert Model() == r.0;
    }

    /** `crsf_process_byte`: dispatch on the sync state. */
    method ProcessByte(g: RuntimeState, b: bv8, now: u32)
      requires Valid()
      modifies this`syncState, this`frameLength, this`bytesReceived, frameBuffer, channelsRaw
      modifies g`roll, g`pitch, g`yaw, g`throttle, g`weapon, g`armSwitch, g`killSwitch, g`selfrightSwitch
      modifies g`lastPacketMs, g`linkOk, g`error
      ensures Valid()
      ensures Rx(g) == Crsf.ReceiveByte(cfg, old(Rx(g)), b, now)
    {
      ghost var p0 := Model();
      match syncState
      case WaitingForAddress => HandleAddressByte(b);
      case WaitingForLength => HandleLengthByte(b);
      case WaitingForType => HandleTypeByte(b);
      case ReadingPayload => HandlePayloadByte(b);
      case ReadingCrc => HandleCrcByte(g, b, now);
    }

    /**
     * `input_update`: every byte waiting on the serial port goes through the
     * parser, oldest first; then, if no valid frame arrived for longer than
     * the link timeout, the failsafe fires.
     */
    method Update(g: RuntimeState, bytes: seq<bv8>, now: u32)
      requires Valid()
      modifies this`syncState, this`frameLength, this`bytesReceived, frameBuffer, channelsRaw
      modifies g`roll, g`pitch, g`yaw, g`throttle, g`weapon, g`armSwitch, g`killSwitch, g`selfrightSwitch
      modifies g`lastPacketMs, g`linkOk, g`error
      ensures Valid()
      ensures Model() == Crsf.Run(old(Model()), bytes)
      ensures LinkOf(g) == Crsf.LinkTimeout(cfg.linkTimeoutMs, Crsf.Receive(cfg, old(Rx(g)), bytes, now).link, now)
    {
      Drain(g, bytes, now);
      CheckLinkTimeout(g, now);
    }

    /** The drain loop: every available byte through `crsf_process_byte`, oldest first. */
    method Drain(g: RuntimeState, bytes: seq<bv8>, now: u32)
      requires Valid()
      modifies this`syncState, this`frameLength, this`bytesReceived, frameBuffer, channelsRaw
      modifies g`roll, g`pitch, g`yaw, g`throttle, g`weapon, g`armSwitch, g`killSwitch, g`selfrightSwitch
      modifies g`lastPacketMs, g`linkOk, g`error
      ensures Valid()
      ensures Rx(g) == Crsf.Receive(cfg, old(Rx(g)), bytes, now)
    {
      var i := 0;
      while i < |bytes|
        invariant 0 <= i <= |bytes|
        invariant Valid()
        invariant Rx(g) == Crsf.Receive(cfg, old(Rx(g)), bytes[..i], now)
      {
        assert bytes[..i + 1][..i] == bytes[..i];
        ProcessByte(g, bytes[i], now);
        i := i + 1;
      }
      assert bytes[..i] == bytes;
    }

    /** The link-timeout check after the drain: failsafe once no frame arrived for too long. */
    method CheckLinkTimeout(g: RuntimeState, now: u32)
      modifies g`roll, g`pitch, g`yaw, g`throttle, g`weapon, g`armSwitch, g`killSwitch, g`selfrightSwitch
      modifies g`linkOk, g`error
      ensures LinkOf(g) == Crsf.LinkTimeout(cfg.linkTimeoutMs, old(LinkOf(g)), now)
    {
      var timeSinceLastPacket := Elapsed(now, g.lastPacketMs);
      if timeSinceLastPacket > cfg.linkTimeoutMs {
        g.linkOk := false;
        Safety.SetError(g, ErrCrsfTimeout);
        SetInputs(g, Crsf.NEUTRAL_INPUT);
      }
    }
  }
}
