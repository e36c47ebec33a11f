/** Status packets: what the wire said, and how far it may be believed. */
module Packets {
  import opened Wrappers
  import opened Constants

  /** The kinds of oddity a decode records, without their text. */
  datatype Anomaly =
    | EmptyPacket
    | UnexpectedFormat
    | IncompletePacket
    | TooShort
    | ImplausibleTime
    | ActualOutsideEnvelope
    | TargetOutsideEnvelope
    | AmbientOutsideEnvelope
    | TargetOutsideRange
    | UnverifiedMode
    | FanStepOutsideRange
    | ChecksumMismatch

  datatype StatusPacket = StatusPacket(
    raw: seq<byte>,
    header: seq<byte>,
    declaredLength: Option<byte>,
    isPartial: bool,
    packetFormat: Option<byte>,
    packetType: Option<byte>,
    timeRemaining: Option<nat>,
    actualTemp: Option<real>,
    targetTemp: Option<real>,
    ambientTemp: Option<real>,
    mode: Option<StatusMode>,
    modeRaw: Option<byte>,
    fanStep: Option<byte>,
    fanPercent: Option<int>,
    minTemp: Option<real>,
    maxTemp: Option<real>,
    maxRuntime: Option<nat>,
    turboElapsed: Option<nat>,
    checksumOk: Option<bool>,
    shutdownReason: Option<byte>,
    updatePhase: Option<byte>,
    flags: Option<byte>,
    sequenceStep: Option<byte>,
    notifyCode: Option<byte>,
    unknownRegion: seq<byte>,
    anomalies: seq<Anomaly>)
  {
    function ExpectedTotal(): Option<nat> {
      if declaredLength.None? then None else Some(declaredLength.value + HEADER_LENGTH)
    }

    predicate IsComplete() {
      ExpectedTotal().Some? && |raw| >= ExpectedTotal().value
    }

    predicate IsTrustworthy() {
      checksumOk == Some(true) && IsComplete()
    }
  }

  function U8(data: seq<byte>, offset: nat): Option<byte> {
    if offset < |data| then Some(data[offset]) else None
  }

  /** Big-endian. */
  function U16(data: seq<byte>, offset: nat): Option<nat> {
    if offset + 1 >= |data| then None
    else
      var high: int := data[offset];
      Some(high * 256 + data[offset + 1])
  }

  /** Python's slicing: a slice that reaches past the end is cut there. */
  function Slice(data: seq<byte>, start: nat, end: nat): seq<byte>
    requires start <= end
  {
    if |data| <= start then [] else if |data| <= end then data[start..] else data[start..end]
  }

  function DecodeTemp(data: seq<byte>, offset: nat): Option<real> {
    match U8(data, offset)
    case None => None
    case Some(raw) => Some(TempByteToC(raw))
  }

  function MaxRuntime(data: seq<byte>): Option<nat> {
    match (U8(data, MAX_RUNTIME_HOURS), U8(data, MAX_RUNTIME_MINUTES))
    case (Some(h), Some(m)) => Some(InSeconds(h, m, 0))
    case _ => None
  }

  predicate LooksLikePacketStart(data: seq<byte>) {
    |data| > PACKET_FORMAT && data[PACKET_FORMAT] in {PACKET_FORMAT_V3_HOME, PACKET_FORMAT_DEBUG}
  }

  function Reassemble(first: seq<byte>, remainder: seq<byte>): seq<byte> {
    first + remainder
  }

  /** A decode that found nothing beyond the header fields. */
  function HeaderOnly(data: seq<byte>, anomalies: seq<Anomaly>): StatusPacket {
    StatusPacket(
      raw := data,
      header := Slice(data, 0, HEADER_LENGTH),
      declaredLength := U8(data, PAYLOAD_LENGTH),
      isPartial := U8(data, IS_PARTIAL).Some? && data[IS_PARTIAL] != 0,
      packetFormat := U8(data, PACKET_FORMAT),
      packetType := U8(data, PACKET_TYPE),
      timeRemaining := None,
      actualTemp := None,
      targetTemp := None,
      ambientTemp := None,
      mode := None,
      modeRaw := None,
      fanStep := None,
      fanPercent := None,
      minTemp := None,
      maxTemp := None,
      maxRuntime := None,
      turboElapsed := None,
      checksumOk := None,
      shutdownReason := None,
      updatePhase := None,
      flags := None,
      sequenceStep := None,
      notifyCode := None,
      unknownRegion := [],
      anomalies := anomalies)
  }

  function When(condition: bool, a: Anomaly): seq<Anomaly> {
    if condition then [a] else []
  }

  predicate Incomplete(data: seq<byte>) {
    |data| > PAYLOAD_LENGTH && |data| < data[PAYLOAD_LENGTH] + HEADER_LENGTH
  }

  function HeaderAnomalies(data: seq<byte>): seq<Anomaly> {
    When(|data| > PACKET_FORMAT && !LooksLikePacketStart(data), UnexpectedFormat)
    + When(Incomplete(data), IncompletePacket)
  }

  predicate OutsideEnvelope(t: real) {
    !(ABSOLUTE_MIN_C <= t <= ABSOLUTE_MAX_C)
  }

  /** The oddities of a packet's header, time and temperatures, in the order they are recorded. */
  function ReadingAnomalies(data: seq<byte>): seq<Anomaly>
    requires |data| >= MIN_STATUS_LENGTH
  {
    var target := TempByteToC(data[TARGET_TEMP]);
    HeaderAnomalies(data)
    + When(data[TIME_MINUTES] > 59 || data[TIME_SECONDS] > 59, ImplausibleTime)
    + When(OutsideEnvelope(TempByteToC(data[ACTUAL_TEMP])), ActualOutsideEnvelope)
    + When(OutsideEnvelope(target), TargetOutsideEnvelope)
    + When(|data| > AMBIENT_TEMP && OutsideEnvelope(TempByteToC(data[AMBIENT_TEMP])), AmbientOutsideEnvelope)
    + When(|data| > MAX_TEMP && !(TempByteToC(data[MIN_TEMP]) <= target <= TempByteToC(data[MAX_TEMP])),
           TargetOutsideRange)
  }

  function AllAnomalies(data: seq<byte>): seq<Anomaly>
    requires |data| >= MIN_STATUS_LENGTH
  {
    ReadingAnomalies(data)
    + When(StatusModeOf(data[MODE]).None?, UnverifiedMode)
    + When(data[FAN_STEP] > FAN_STEP_MAX, FanStepOutsideRange)
    + When(!Incomplete(data) && !VerifyChecksum(data[..data[PAYLOAD_LENGTH] + HEADER_LENGTH]), ChecksumMismatch)
  }

  /** What a byte string decodes to. Total: a short or corrupt packet decodes as far as it can. */
  function Decode(data: seq<byte>): StatusPacket {
    if data == [] then
      HeaderOnly([], [EmptyPacket])
    else if |data| < MIN_STATUS_LENGTH then
      HeaderOnly(data, HeaderAnomalies(data) + [TooShort])
    else
      HeaderOnly(data, AllAnomalies(data)).(
        timeRemaining := Some(InSeconds(data[TIME_HOURS], data[TIME_MINUTES], data[TIME_SECONDS])),
        actualTemp := DecodeTemp(data, ACTUAL_TEMP),
        targetTemp := DecodeTemp(data, TARGET_TEMP),
        ambientTemp := DecodeTemp(data, AMBIENT_TEMP),
        mode := StatusModeOf(data[MODE]),
        modeRaw := U8(data, MODE),
        fanStep := U8(data, FAN_STEP),
        fanPercent := if data[FAN_STEP] <= FAN_STEP_MAX then Some(FanStepToPercent(data[FAN_STEP])) else None,
        minTemp := DecodeTemp(data, MIN_TEMP),
        maxTemp := DecodeTemp(data, MAX_TEMP),
        maxRuntime := MaxRuntime(data),
        turboElapsed := U16(data, TURBO_ELAPSED),
        shutdownReason := U8(data, SHUTDOWN_REASON),
        updatePhase := U8(data, UPDATE_PHASE),
        flags := U8(data, FLAGS),
        sequenceStep := U8(data, SEQUENCE_STEP),
        notifyCode := U8(data, NOTIFY_CODE),
        unknownRegion := Slice(data, UNKNOWN_REGION_START, UNKNOWN_REGION_END),
        checksumOk := if Incomplete(data) then None
                      else Some(VerifyChecksum(data[..data[PAYLOAD_LENGTH] + HEADER_LENGTH])))
  }

  /** The first half of `decode_status`: the anomaly list as the header, the time and the
      temperatures are looked at. */
  method NoteReadings(data: seq<byte>) returns (anomalies: seq<Anomaly>)
    requires |data| >= MIN_STATUS_LENGTH
    ensures anomalies == ReadingAnomalies(data)
  {
    anomalies := HeaderAnomalies(data);
    anomalies := anomalies + When(data[TIME_MINUTES] > 59 || data[TIME_SECONDS] > 59, ImplausibleTime);
    var lo, hi := DecodeTemp(data, MIN_TEMP), DecodeTemp(data, MAX_TEMP);
    var actual, target := TempByteToC(data[ACTUAL_TEMP]), TempByteToC(data[TARGET_TEMP]);
    var ambient := DecodeTemp(data, AMBIENT_TEMP);
    anomalies := anomalies + When(OutsideEnvelope(actual), ActualOutsideEnvelope);
    anomalies := anomalies + When(OutsideEnvelope(target), TargetOutsideEnvelope);
    anomalies := anomalies + When(ambient.Some? && OutsideEnvelope(ambient.value), AmbientOutsideEnvelope);
    anomalies := anomalies + When(lo.Some? && hi.Some? && !(lo.value <= target <= hi.value), TargetOutsideRange);
  }

  /** `decode_status`: locals are reassigned and the anomaly list grows step by step. */
  method DecodeStatus(data: seq<byte>) returns (p: StatusPacket)
    ensures p == Decode(data)
  {
    if data == [] {
      return HeaderOnly([], [EmptyPacket]);
    }
    if |data| < MIN_STATUS_LENGTH {
      return HeaderOnly(data, HeaderAnomalies(data) + [TooShort]);
    }
    var anomalies := NoteReadings(data);

    var mode := StatusModeOf(data[MODE]);
    anomalies := anomalies + When(mode.None?, UnverifiedMode);

    var fanPercent: Option<int> := None;
    if FAN_STEP_MIN <= data[FAN_STEP] <= FAN_STEP_MAX {
      fanPercent := Some(FanStepToPercent(data[FAN_STEP]));
    }
    anomalies := anomalies + When(fanPercent.None?, FanStepOutsideRange);

    var checksumOk: Option<bool> := None;
    if |data| >= data[PAYLOAD_LENGTH] + HEADER_LENGTH {
      checksumOk := Some(VerifyChecksum(data[..data[PAYLOAD_LENGTH] + HEADER_LENGTH]));
    }
    anomalies := anomalies + When(checksumOk == Some(false), ChecksumMismatch);

    p := HeaderOnly(data, anomalies).(
      timeRemaining := Some(InSeconds(data[TIME_HOURS], data[TIME_MINUTES], data[TIME_SECONDS])),
      actualTemp := DecodeTemp(data, ACTUAL_TEMP),
      targetTemp := DecodeTemp(data, TARGET_TEMP),
      ambientTemp := DecodeTemp(data, AMBIENT_TEMP),
      mode := mode,
      modeRaw := U8(data, MODE),
      fanStep := U8(data, FAN_STEP),
      fanPercent := fanPercent,
      minTemp := DecodeTemp(data, MIN_TEMP),
      maxTemp := DecodeTemp(data, MAX_TEMP),
      maxRuntime := MaxRuntime(data),
      turboElapsed := U16(data, TURBO_ELAPSED),
      checksumOk := checksumOk,
      shutdownReason := U8(data, SHUTDOWN_REASON),
      updatePhase := U8(data, UPDATE_PHASE),
      flags := U8(data, FLAGS),
      sequenceStep := U8(data, SEQUENCE_STEP),
      notifyCode := U8(data, NOTIFY_CODE),
      unknownRegion := Slice(data, UNKNOWN_REGION_START, UNKNOWN_REGION_END));
  }

  /** Long enough to decode, whole by its own length byte, and summing to zero over the
      declared span. */
  predicate Believable(data: seq<byte>) {
    |data| >= 11 && |data| >= data[2] as int + 4 && Sum(data[..data[2] as int + 4]) % 256 == 0
  }

  /** Exactly which byte strings decode to a packet that may be believed. */
  lemma TrustworthyIff(data: seq<byte>)
    ensures Decode(data).IsTrustworthy() <==> Believable(data)
  {
  }
}
