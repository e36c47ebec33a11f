/** The wire vocabulary: bytes, packet offsets, the two mode enums, scales and the checksum. */
module Constants {
  import opened Wrappers

  type byte = x: int | 0 <= x < 256

  // Offsets into a reassembled status packet.
  const IS_PARTIAL := 0
  const PACKET_FORMAT := 1
  const PAYLOAD_LENGTH := 2
  const PACKET_TYPE := 3
  const TIME_HOURS := 4
  const TIME_MINUTES := 5
  const TIME_SECONDS := 6
  const ACTUAL_TEMP := 7
  const TARGET_TEMP := 8
  const MODE := 9
  const FAN_STEP := 10
  const MAX_RUNTIME_HOURS := 11
  const MAX_RUNTIME_MINUTES := 12
  const MIN_TEMP := 13
  const MAX_TEMP := 14
  const TURBO_ELAPSED := 15
  const AMBIENT_TEMP := 17
  const SHUTDOWN_REASON := 18
  const UNKNOWN_REGION_START := 19
  const UNKNOWN_REGION_END := 26
  const UPDATE_PHASE := 26
  const FLAGS := 27
  const SEQUENCE_STEP := 28
  const NOTIFY_CODE := 29

  const HEADER_LENGTH := 4
  const MIN_STATUS_LENGTH := 11

  const PACKET_FORMAT_V3_HOME: byte := 0x56
  const PACKET_FORMAT_DEBUG: byte := 0x05

  const TEMP_SCALE := 2.0
  const ABSOLUTE_MIN_C := 5.0
  const ABSOLUTE_MAX_C := 50.0

  const FAN_STEP_MIN := 0
  const FAN_STEP_MAX := 19
  const FAN_PERCENT_BASE := 5
  const FAN_PERCENT_STEP := 5

  /** Modes as a status packet reports them; 0x03 has never been observed. */
  datatype StatusMode = STANDBY | HEAT | TURBO | COOL | DRY

  function StatusModeOf(raw: byte): Option<StatusMode> {
    match raw
    case 0 => Some(STANDBY)
    case 1 => Some(HEAT)
    case 2 => Some(TURBO)
    case 4 => Some(COOL)
    case 5 => Some(DRY)
    case _ => None
  }

  /** Mode operands of the 0x01 command: a different enum with different codes. */
  datatype CommandMode = CmdOff | CmdCool | CmdHeat | CmdTurbo | CmdDry | CmdExtendedHeat
  {
    function Code(): byte {
      match this
      case CmdOff => 0x01
      case CmdCool => 0x02
      case CmdHeat => 0x03
      case CmdTurbo => 0x04
      case CmdDry => 0x05
      case CmdExtendedHeat => 0x06
    }
  }

  function FanStepToPercent(step: int): int {
    FAN_PERCENT_BASE + FAN_PERCENT_STEP * step
  }

  function TempByteToC(raw: byte): real {
    raw as real / TEMP_SCALE
  }

  function InSeconds(hours: nat, minutes: nat, seconds: nat): nat {
    hours * 3600 + minutes * 60 + seconds
  }

  /** Python's `sum` over a byte string. */
  function Sum(b: seq<byte>): nat {
    if b == [] then 0 else Sum(b[..|b| - 1]) + b[|b| - 1]
  }

  /** `(-sum(body)) & 0xFF`: Dafny's `%` is never negative, as the mask is. */
  function ComputeChecksum(body: seq<byte>): byte {
    var total: int := Sum(body);
    (-total) % 256
  }

  predicate VerifyChecksum(packet: seq<byte>) {
    packet != [] && Sum(packet) % 256 == 0
  }
}
