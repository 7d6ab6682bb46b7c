/**
  The MLX90393 driver of the firmware: command opcodes, the status checks of
  the exit, reset and start-measurement commands, decoding of the Z-axis
  reading into millitesla, and the two composite operations (initialisation
  and one read) that the main loop calls.

  The I2C transfer itself is not modelled. Each transfer appears as its
  outcome: `None` when the write or the read on the bus failed, otherwise the
  bytes read back. A status-only transfer reads one byte; the read-measurement
  transfer reads one status byte and six data bytes (X, Y, Z, big-endian).
 */
module Mlx90393 {
  import opened Options
  import opened FixedWidth
  import opened Reals
  import opened ScaleTable

  /** Commands the firmware writes; the measurement commands always select all three axes. */
  datatype Command = ExitMode | Reset | StartMeasurement | ReadMeasurement

  const AxisAll: bv8 := 0x0E

  /** The command byte put on the bus for each command. */
  function Opcode(c: Command): uint8
  {
    match c
    case ExitMode => 0x80
    case Reset => 0xF0
    case StartMeasurement => ((0x30 as bv8) | AxisAll) as int
    case ReadMeasurement => ((0x40 as bv8) | AxisAll) as int
  }

  /**
    The opcode carries the command in its high nibble and the axis selection
    in its low nibble, so distinct commands never share a byte.
   */
  lemma OpcodeLayout(c: Command)
    ensures c.StartMeasurement? ==> Opcode(c) / 16 == 0x3 && Opcode(c) % 16 == 0x0E
    ensures c.ReadMeasurement? ==> Opcode(c) / 16 == 0x4 && Opcode(c) % 16 == 0x0E
    ensures c.ExitMode? ==> Opcode(c) == 0x80
    ensures c.Reset? ==> Opcode(c) == 0xF0
  {
  }

  lemma OpcodeInjective(c1: Command, c2: Command)
    requires Opcode(c1) == Opcode(c2)
    ensures c1 == c2
  {
  }

  /** The sensor settings the firmware compiles in (`mlx_gain`, `mlx_res_z`). */
  datatype Config = Config(gain: Gain, resZ: Resolution)

  const FirmwareConfig: Config := Config(Gain1X, Res16)

  /** `Z_OFFSET_MT`: added to every reading so that it stays positive. */
  const ZOffsetMilliTesla: real := 20.0

  /** Outcome of a transfer that reads back only the status byte. */
  type StatusReply = Option<uint8>

  /** Outcome of the read-measurement transfer: status byte plus six data bytes. */
  type MeasurementReply = Option<seq<uint8>>

  predicate WellFormedMeasurement(reply: MeasurementReply)
  {
    reply.Some? ==> |reply.value| == 7
  }

  /** `mlx_exit_mode`: the transfer succeeded and the status code is 0. */
  function ExitSucceeded(reply: StatusReply): (ok: bool)
    ensures ok <==> reply.Some? && reply.value < 4
  {
    reply.Some? && StatusCode(reply.value) == 0x00
  }

  /** `mlx_reset`: the transfer succeeded and the status code is 1 (the device reports a reset). */
  function ResetSucceeded(reply: StatusReply): (ok: bool)
    ensures ok <==> reply.Some? && 4 <= reply.value < 8
  {
    reply.Some? && StatusCode(reply.value) == 0x01
  }

  /** `mlx_start_measurement`: the transfer succeeded and the status code is 0 or 8. */
  function StartSucceeded(reply: StatusReply): (ok: bool)
    ensures ok <==> reply.Some? && (reply.value < 4 || 32 <= reply.value < 36)
  {
    reply.Some? && var code := StatusCode(reply.value); code == 0x00 || code == 0x08
  }

  /** No status byte is accepted both by the exit check and by the reset check. */
  lemma ExitAndResetStatusesDisjoint(reply: StatusReply)
    ensures !(ExitSucceeded(reply) && ResetSucceeded(reply))
  {
  }

  /**
    The Z count after the resolution correction: the raw bytes as `int16_t`,
    then `zi -= 0x8000` at 18 bits or `zi -= 0x4000` at 19 bits, each stored
    back into the `int16_t`. Stated in terms of the unsigned wire value `u`.
   */
  function DecodeZ(res: Resolution, hi: uint8, lo: uint8): (zi: int16)
    ensures var u := BigEndian16(hi, lo);
      match res
      case Res16 => zi == (if u < 0x8000 then u else u - 0x10000)
      case Res17 => zi == (if u < 0x8000 then u else u - 0x10000)
      case Res18 => zi == u - 0x8000
      case Res19 => zi == (if u < 0xC000 then u - 0x4000 else u - 0x14000)
  {
    var raw := SignedBigEndian16(hi, lo);
    match res
    case Res18 => Wrap16Near(raw - 0x8000); Wrap16(raw - 0x8000)
    case Res19 => Wrap16Near(raw - 0x4000); Wrap16(raw - 0x4000)
    case _ => raw
  }

  /**
    At 18 bits the correction moves the signed 16-bit reading by exactly
    0x8000, downwards for non-negative readings and upwards for negative ones.
   */
  lemma Res18Correction(hi: uint8, lo: uint8)
    ensures var s := DecodeZ(Res16, hi, lo);
      DecodeZ(Res18, hi, lo) == if s >= 0 then s - 0x8000 else s + 0x8000
  {
  }

  /**
    At 19 bits the correction is a constant bias of -0x4000 only for readings
    that do not wrap; readings below -0x4000 wrap round to the top of the range.
   */
  lemma Res19Correction(hi: uint8, lo: uint8)
    ensures var s := DecodeZ(Res16, hi, lo);
      DecodeZ(Res19, hi, lo) == if s >= -0x4000 then s - 0x4000 else s + 0xC000
  {
  }

  /** The field before the clamp: counts times the Z factor, in mT, plus the offset. */
  function UnclampedField(cfg: Config, zi: int16): real
  {
    (zi * Lsb(HallConfC, cfg.gain, cfg.resZ, AxisZ)) as real / 1000000.0 + ZOffsetMilliTesla
  }

  /**
    The reported Z field in millitesla: the count scaled by the HALLCONF = 0xC,
    Z-axis factor of the configured gain and resolution, converted from uT to
    mT, offset by `Z_OFFSET_MT` and clamped at zero.
   */
  function FieldMilliTesla(cfg: Config, zi: int16): (mT: real)
    ensures mT >= 0.0
    ensures mT >= UnclampedField(cfg, zi)
    ensures mT == UnclampedField(cfg, zi) || mT == 0.0
  {
    ClampNonNegative(UnclampedField(cfg, zi))
  }

  /** A zero count reads as exactly the offset. */
  lemma FieldOfZeroCount(cfg: Config)
    ensures FieldMilliTesla(cfg, 0) == 20.0
  {
  }

  /** More counts never read as less field. */
  lemma FieldMonotone(cfg: Config, z1: int16, z2: int16)
    requires z1 <= z2
    ensures FieldMilliTesla(cfg, z1) <= FieldMilliTesla(cfg, z2)
  {
    var lsb := Lsb(HallConfC, cfg.gain, cfg.resZ, AxisZ);
    assert z1 * lsb <= z2 * lsb;
  }

  /**
    With the compiled-in settings (gain 1X, 16 bits) the Z factor is
    0.242 uT per count: 100 counts read as 20.0242 mT.
   */
  lemma HundredCountsAtFirmwareSettings()
    ensures FieldMilliTesla(FirmwareConfig, 100) == 20.0242
  {
  }

  /**
    With the compiled-in settings the clamp never acts: every `int16_t` count
    maps affinely into [12.070144, 27.929614] mT.
   */
  lemma FirmwareFieldRange(zi: int16)
    ensures FieldMilliTesla(FirmwareConfig, zi) == (zi * 242) as real / 1000000.0 + 20.0
    ensures 12.070144 <= FieldMilliTesla(FirmwareConfig, zi) <= 27.929614
  {
  }

  /** With a coarser factor the clamp is reachable: at gain 5X, 16 bits, the most negative count reads 0. */
  lemma ClampReachable()
    ensures UnclampedField(Config(Gain5X, Res16), -0x8000) < 0.0
    ensures FieldMilliTesla(Config(Gain5X, Res16), -0x8000) == 0.0
  {
  }

  /** Result of `mlx_read_measurement(&z)`: whether it succeeded, and the value left in `*z`. */
  datatype Measurement = Measurement(ok: bool, z: real)

  /**
    `mlx_read_measurement`: on a failed transfer or a non-zero status code it
    returns false and leaves `*z` as it was; otherwise it decodes data bytes
    5 and 6 (the Z axis) and writes the field.
   */
  function ReadMeasurementZ(cfg: Config, reply: MeasurementReply, z: real): (m: Measurement)
    requires WellFormedMeasurement(reply)
    ensures m.ok <==> reply.Some? && reply.value[0] < 4
    ensures !m.ok ==> m.z == z
    ensures m.ok ==> m.z == FieldMilliTesla(cfg, DecodeZ(cfg.resZ, reply.value[5], reply.value[6]))
    ensures m.ok ==> m.z >= 0.0
  {
    match reply
    case None => Measurement(false, z)
    case Some(data) =>
      if StatusCode(data[0]) == 0x00 then
        Measurement(true, FieldMilliTesla(cfg, DecodeZ(cfg.resZ, data[5], data[6])))
      else
        Measurement(false, z)
  }

  /** A driver operation: whether it succeeded, the value in `*z`, and the commands written to the bus in order. */
  datatype Transaction = Transaction(ok: bool, z: real, sent: seq<Command>)

  /**
    `mlx_read_data`: start a measurement, and only if the device accepted it,
    read the measurement back.
   */
  function ReadData(cfg: Config, start: StatusReply, read: MeasurementReply, z: real): (t: Transaction)
    requires WellFormedMeasurement(read)
    ensures t.sent == if StartSucceeded(start) then [StartMeasurement, ReadMeasurement] else [StartMeasurement]
    ensures t.ok <==> StartSucceeded(start) && read.Some? && read.value[0] < 4
    ensures !t.ok ==> t.z == z
    ensures t.ok ==> t.z == FieldMilliTesla(cfg, DecodeZ(cfg.resZ, read.value[5], read.value[6]))
    ensures t.ok ==> t.z >= 0.0
  {
    if !StartSucceeded(start) then
      Transaction(false, z, [StartMeasurement])
    else
      var m := ReadMeasurementZ(cfg, read, z);
      Transaction(m.ok, m.z, [StartMeasurement, ReadMeasurement])
  }

  /** Result of `mlx_init`: the value it leaves in `mlx_initialized`, and the commands written. */
  datatype InitResult = InitResult(initialized: bool, sent: seq<Command>)

  /**
    `mlx_init`: exit any running mode, then reset; the reset is attempted only
    after the exit succeeded, and the sensor counts as initialised only when
    both succeeded.
   */
  function Init(exit: StatusReply, reset: StatusReply): (r: InitResult)
    ensures r.sent == if ExitSucceeded(exit) then [ExitMode, Reset] else [ExitMode]
    ensures r.initialized <==> exit.Some? && exit.value < 4 && reset.Some? && 4 <= reset.value < 8
  {
    if !ExitSucceeded(exit) then InitResult(false, [ExitMode])
    else if !ResetSucceeded(reset) then InitResult(false, [ExitMode, Reset])
    else InitResult(true, [ExitMode, Reset])
  }
}
