/** Command encoding: the half-degree and five-percent grids, and what the device echoes back. */
module Encode {
  import opened Wrappers
  import opened Constants
  import opened Packets

  const OPCODE_BUTTON: byte := 0x01
  const OPCODE_TEMPERATURE: byte := 0x03
  const OPCODE_FAN: byte := 0x07

  const FAN_PERCENT_MIN := FAN_PERCENT_BASE
  const FAN_PERCENT_MAX := FAN_PERCENT_BASE + FAN_STEP_MAX * FAN_PERCENT_STEP

  datatype CommandError =
    | FanPercentOutOfRange
    | FanStepOutOfRange
    | TargetDoesNotFitOneByte
    | BoundsRequired
    | TargetOutOfRange

  /** Python's `round` to an integer: half to even. */
  function Round(x: real): int {
    var below := x.Floor;
    var rest := x - below as real;
    if rest < 0.5 then below
    else if rest > 0.5 then below + 1
    else if below % 2 == 0 then below else below + 1
  }

  function SetMode(mode: CommandMode): seq<byte> {
    [OPCODE_BUTTON, mode.Code()]
  }

  function TurnOff(): seq<byte> {
    SetMode(CmdOff)
  }

  function SetFanStep(step: int): Result<seq<byte>, CommandError> {
    if FAN_STEP_MIN <= step <= FAN_STEP_MAX then Success([OPCODE_FAN, step]) else Failure(FanStepOutOfRange)
  }

  predicate FanPercentInRange(percent: int) {
    FAN_PERCENT_MIN <= percent <= FAN_PERCENT_MAX
  }

  function FanPercentToStep(percent: int): int {
    Round((percent - FAN_PERCENT_MIN) as real / FAN_PERCENT_STEP as real)
  }

  function SnapFanPercent(percent: int): Result<int, CommandError> {
    if FanPercentInRange(percent) then Success(FanStepToPercent(FanPercentToStep(percent)))
    else Failure(FanPercentOutOfRange)
  }

  function SetFanPercent(percent: int): Result<seq<byte>, CommandError> {
    if FanPercentInRange(percent) then SetFanStep(FanPercentToStep(percent)) else Failure(FanPercentOutOfRange)
  }

  function TargetRaw(celsius: real): Result<byte, CommandError> {
    var raw := Round(celsius * TEMP_SCALE);
    if 0 <= raw <= 0xFF then Success(raw) else Failure(TargetDoesNotFitOneByte)
  }

  function SnapTarget(celsius: real): Result<real, CommandError> {
    match TargetRaw(celsius)
    case Success(raw) => Success(raw as real / TEMP_SCALE)
    case Failure(e) => Failure(e)
  }

  function SetTemperature(celsius: real, min: Option<real>, max: Option<real>): Result<seq<byte>, CommandError> {
    if min.None? || max.None? then Failure(BoundsRequired)
    else if !(min.value <= celsius <= max.value) then Failure(TargetOutOfRange)
    else match TargetRaw(celsius)
         case Success(raw) => Success([OPCODE_TEMPERATURE, raw])
         case Failure(e) => Failure(e)
  }

  // ---- rounding ----------------------------------------------------------------------------

  /** Half-even rounding, said without computing it: the nearest integer, the even one on ties. */
  predicate IsHalfEven(x: real, n: int) {
    var d := x - n as real;
    -0.5 <= d <= 0.5 && (d == 0.5 || d == -0.5 ==> n % 2 == 0)
  }

  lemma RoundIsHalfEven(x: real, n: int)
    ensures n == Round(x) <==> IsHalfEven(x, n)
  {
    var below := x.Floor;
    if IsHalfEven(x, n) {
      assert n == below || n == below + 1;
    }
  }

  lemma RoundIsMonotone(x: real, y: real)
    requires x <= y
    ensures Round(x) <= Round(y)
  {
    RoundIsHalfEven(x, Round(x));
    RoundIsHalfEven(y, Round(y));
  }

  lemma RoundOfInteger(n: int)
    ensures Round(n as real) == n
  {
  }

  // ---- temperature -------------------------------------------------------------------------

  /** A target is sendable exactly within the range whose rounding fits one byte: the lower edge
      rounds to 0, the upper one to 256. */
  lemma SnapRefusesIff(celsius: real)
    ensures SnapTarget(celsius).Failure? <==> celsius < -0.25 || celsius >= 127.75
  {
    RoundIsHalfEven(celsius * TEMP_SCALE, Round(celsius * TEMP_SCALE));
  }

  function Distance(a: real, b: real): real {
    if a < b then b - a else a - b
  }

  lemma RoundIsNearest(x: real, n: int)
    ensures Distance(x, Round(x) as real) <= 0.5
    ensures Distance(x, Round(x) as real) <= Distance(x, n as real)
    ensures Distance(x, Round(x) as real) == Distance(x, n as real) ==> n == Round(x) || n % 2 == 1
  {
    RoundIsHalfEven(x, Round(x));
    RoundIsHalfEven(x, n);
  }

  /** Snapping moves a target by at most a quarter degree, no grid point is nearer, and of two
      equally near ones the even byte is taken. */
  lemma SnapIsNearest(celsius: real, raw: byte)
    requires SnapTarget(celsius).Success?
    ensures var snapped, other := SnapTarget(celsius).value, TempByteToC(raw);
            && Distance(celsius, snapped) <= 0.25
            && Distance(celsius, snapped) <= Distance(celsius, other)
            && (Distance(celsius, snapped) == Distance(celsius, other) ==> snapped == other || raw % 2 == 1)
  {
    RoundIsNearest(celsius * TEMP_SCALE, raw);
  }

  lemma SnapIsMonotone(a: real, b: real)
    requires a <= b && SnapTarget(a).Success? && SnapTarget(b).Success?
    ensures SnapTarget(a).value <= SnapTarget(b).value
  {
    RoundIsMonotone(a * TEMP_SCALE, b * TEMP_SCALE);
  }

  /** The API snaps and the commander snaps again: the second time changes nothing. */
  lemma SnapIsIdempotent(celsius: real)
    requires SnapTarget(celsius).Success?
    ensures SnapTarget(SnapTarget(celsius).value) == SnapTarget(celsius)
  {
    RoundOfInteger(TargetRaw(celsius).value);
    assert SnapTarget(celsius).value * TEMP_SCALE == TargetRaw(celsius).value as real;
  }

  /** Rounding comes before validation, so a request is sent exactly when its rounded byte lies
      between the two bytes the device reported; and then that byte is what is sent. */
  lemma TemperatureAcceptedIff(celsius: real, lo: byte, hi: byte)
    requires SnapTarget(celsius).Success?
    ensures var sent := SetTemperature(SnapTarget(celsius).value, Some(TempByteToC(lo)), Some(TempByteToC(hi)));
            && (sent.Success? <==> lo <= TargetRaw(celsius).value <= hi)
            && (sent.Success? ==> sent.value == [0x03, TargetRaw(celsius).value])
  {
    SnapIsIdempotent(celsius);
  }

  /** A request inside the device's own bounds is never refused. */
  lemma InBoundsIsNeverRefused(celsius: real, lo: byte, hi: byte)
    requires TempByteToC(lo) <= celsius <= TempByteToC(hi)
    ensures SnapTarget(celsius).Success?
    ensures SetTemperature(SnapTarget(celsius).value, Some(TempByteToC(lo)), Some(TempByteToC(hi))).Success?
  {
    RoundOfInteger(lo);
    RoundOfInteger(hi);
    RoundIsMonotone(lo as real, celsius * TEMP_SCALE);
    RoundIsMonotone(celsius * TEMP_SCALE, hi as real);
    TemperatureAcceptedIff(celsius, lo, hi);
  }

  /** The device confirms a target exactly when it reports the byte it was sent. */
  lemma TargetConfirmedIff(celsius: real, data: seq<byte>)
    requires SnapTarget(celsius).Success? && |data| >= MIN_STATUS_LENGTH
    ensures Decode(data).targetTemp == Some(SnapTarget(celsius).value) <==>
              data[8] == TargetRaw(celsius).value
  {
  }

  // ---- fan ---------------------------------------------------------------------------------

  /** A fan percentage is refused exactly outside 5 to 100. */
  lemma FanRefusesIff(percent: int)
    ensures SnapFanPercent(percent).Failure? <==> percent < 5 || 100 < percent
  {
  }

  /** Every percent in range snaps to the one grid point within 2, is never refused further in,
      and snaps to itself the second time. */
  lemma FanSnapIsNearest(percent: int, step: int)
    requires 5 <= percent <= 100 && 0 <= step <= 19
    ensures FanPercentInRange(percent)
    ensures var snapped := SnapFanPercent(percent).value;
            && 0 <= FanPercentToStep(percent) <= 19
            && snapped == 5 + 5 * FanPercentToStep(percent)
            && -2 <= percent - snapped <= 2
            && (-2 <= percent - (5 + 5 * step) <= 2 ==> 5 + 5 * step == snapped)
            && SnapFanPercent(snapped) == Success(snapped)
            && SetFanPercent(snapped) == Success([0x07, FanPercentToStep(percent)])
  {
    var x := (percent - FAN_PERCENT_MIN) as real / FAN_PERCENT_STEP as real;
    RoundIsHalfEven(x, Round(x));
    RoundOfInteger(Round(x));
    assert (SnapFanPercent(percent).value - FAN_PERCENT_MIN) as real / FAN_PERCENT_STEP as real == Round(x) as real;
  }

  /** The device confirms a fan command exactly when it reports the step it was sent. */
  lemma FanConfirmedIff(percent: int, data: seq<byte>)
    requires FanPercentInRange(percent) && |data| >= MIN_STATUS_LENGTH
    ensures Decode(data).fanPercent == Some(SnapFanPercent(percent).value) <==>
              SetFanPercent(percent) == Success([0x07, data[10]])
  {
    FanSnapIsNearest(percent, 0);
  }
}
