/** What every byte of a status packet comes to, by its number, and what the device model makes of
    it. */
module PacketFields {
  import opened Wrappers
  import opened Constants
  import opened Packets
  import opened DeviceState

  /** A byte that may lie past the end. */
  function At(data: seq<byte>, i: nat): Option<byte> {
    if i < |data| then Some(data[i]) else None
  }

  /** Half a degree Celsius a step. */
  function Degrees(data: seq<byte>, i: nat): Option<real> {
    if i < |data| then Some(data[i] as real / 2.0) else None
  }

  /** Only 0x56 and 0x05 begin a packet, in byte 1. */
  lemma PacketStarts(data: seq<byte>)
    ensures LooksLikePacketStart(data) <==> |data| > 1 && (data[1] == 0x56 || data[1] == 0x05)
  {
  }

  /** The header, of any byte string: bytes 0 to 3. */
  lemma HeaderFields(data: seq<byte>)
    ensures var p := Decode(data);
            && p.raw == data
            && p.header == (if |data| > 4 then data[..4] else data)
            && (p.isPartial <==> |data| > 0 && data[0] != 0)
            && p.packetFormat == At(data, 1) && p.declaredLength == At(data, 2) && p.packetType == At(data, 3)
            && (p.IsComplete() <==> |data| > 2 && |data| >= data[2] as int + 4)
  {
  }

  /** A byte string of less than eleven bytes tells nothing else. */
  lemma ShortPacketFields(data: seq<byte>)
    requires |data| < 11
    ensures var p := Decode(data);
            && p.timeRemaining.None? && p.actualTemp.None? && p.targetTemp.None? && p.ambientTemp.None?
            && p.mode.None? && p.modeRaw.None? && p.fanStep.None? && p.fanPercent.None?
            && p.minTemp.None? && p.maxTemp.None? && p.maxRuntime.None? && p.turboElapsed.None?
            && p.checksumOk.None? && p.shutdownReason.None? && p.updatePhase.None? && p.flags.None?
            && p.sequenceStep.None? && p.notifyCode.None? && p.unknownRegion == []
  {
  }

  /** What the unit is doing: bytes 4 to 10. */
  lemma WorkingFields(data: seq<byte>)
    requires |data| >= 11
    ensures var p := Decode(data);
            && p.timeRemaining == Some(3600 * (data[4] as int) + 60 * (data[5] as int) + data[6] as int)
            && p.actualTemp == Some(data[7] as real / 2.0) && p.targetTemp == Some(data[8] as real / 2.0)
            && p.modeRaw == Some(data[9])
            && p.mode == (if data[9] == 0 then Some(STANDBY) else if data[9] == 1 then Some(HEAT)
                          else if data[9] == 2 then Some(TURBO) else if data[9] == 4 then Some(COOL)
                          else if data[9] == 5 then Some(DRY) else None)
            && p.fanStep == Some(data[10])
            && p.fanPercent == (if data[10] <= 19 then Some(5 + 5 * (data[10] as int)) else None)
  {
  }

  /** What it permits, and the rest: bytes 11 to 29, as far as there are any. */
  lemma LimitFields(data: seq<byte>)
    requires |data| >= 11
    ensures var p := Decode(data);
            && p.maxRuntime == (if |data| > 12 then Some(3600 * (data[11] as int) + 60 * (data[12] as int)) else None)
            && p.minTemp == Degrees(data, 13) && p.maxTemp == Degrees(data, 14)
            && p.turboElapsed == (if |data| > 16 then Some(256 * (data[15] as int) + data[16] as int) else None)
            && p.ambientTemp == Degrees(data, 17)
            && p.shutdownReason == At(data, 18)
            && p.updatePhase == At(data, 26) && p.flags == At(data, 27)
            && p.sequenceStep == At(data, 28) && p.notifyCode == At(data, 29)
  {
  }

  lemma UnknownRegionField(data: seq<byte>)
    requires |data| >= 11
    ensures Decode(data).unknownRegion ==
              if |data| <= 19 then [] else if |data| <= 26 then data[19..] else data[19..26]
  {
  }

  /** The checksum is looked at once the packet is whole, over the declared span. */
  lemma ChecksumField(data: seq<byte>)
    requires |data| >= 11
    ensures Decode(data).checksumOk ==
              if |data| < data[2] as int + 4 then None else Some(Sum(data[..data[2] as int + 4]) % 256 == 0)
  {
  }

  /** When an anomaly of a packet long enough to decode is recorded. */
  predicate Odd(data: seq<byte>, a: Anomaly)
    requires |data| >= 11
  {
    match a
    case EmptyPacket => false
    case TooShort => false
    case UnexpectedFormat => data[1] != 0x56 && data[1] != 0x05
    case IncompletePacket => |data| < data[2] as int + 4
    case ImplausibleTime => data[5] > 59 || data[6] > 59
    case ActualOutsideEnvelope => !(10 <= data[7] <= 100)
    case TargetOutsideEnvelope => !(10 <= data[8] <= 100)
    case AmbientOutsideEnvelope => |data| > 17 && !(10 <= data[17] <= 100)
    case TargetOutsideRange => |data| > 14 && !(data[13] <= data[8] <= data[14])
    case UnverifiedMode => data[9] == 3 || data[9] > 5
    case FanStepOutsideRange => data[10] > 19
    case ChecksumMismatch => |data| >= data[2] as int + 4 && Sum(data[..data[2] as int + 4]) % 256 != 0
  }

  lemma HeaderAnomalyIff(data: seq<byte>, a: Anomaly)
    requires |data| >= 11
    ensures a in HeaderAnomalies(data) <==> Odd(data, a) && (a.UnexpectedFormat? || a.IncompletePacket?)
  {
  }

  lemma ReadingAnomalyIff(data: seq<byte>, a: Anomaly)
    requires |data| >= 11
    ensures a in ReadingAnomalies(data) <==>
              Odd(data, a) && !a.UnverifiedMode? && !a.FanStepOutsideRange? && !a.ChecksumMismatch?
  {
    HeaderAnomalyIff(data, a);
    var seconds := HeaderAnomalies(data) + When(data[5] > 59 || data[6] > 59, ImplausibleTime);
    var actual := seconds + When(OutsideEnvelope(TempByteToC(data[7])), ActualOutsideEnvelope);
    var target := actual + When(OutsideEnvelope(TempByteToC(data[8])), TargetOutsideEnvelope);
    assert a in target <==>
             || a in HeaderAnomalies(data)
             || (Odd(data, a) && (a.ImplausibleTime? || a.ActualOutsideEnvelope? || a.TargetOutsideEnvelope?));
  }

  lemma ClosingAnomalyIff(data: seq<byte>, a: Anomaly)
    requires |data| >= 11
    ensures a in AllAnomalies(data) <==>
              || a in ReadingAnomalies(data)
              || (Odd(data, a) && (a.UnverifiedMode? || a.FanStepOutsideRange? || a.ChecksumMismatch?))
  {
  }

  /** Every oddity is recorded exactly when it is there. */
  lemma AnomalyIff(data: seq<byte>, a: Anomaly)
    requires |data| >= 11
    ensures a in Decode(data).anomalies <==> Odd(data, a)
  {
    ReadingAnomalyIff(data, a);
    ClosingAnomalyIff(data, a);
  }

  lemma ShortAnomalyIff(data: seq<byte>, a: Anomaly)
    requires |data| < 11
    ensures a in Decode(data).anomalies <==>
              if |data| == 0 then a.EmptyPacket?
              else
                || a.TooShort?
                || (a.UnexpectedFormat? && |data| > 1 && data[1] != 0x56 && data[1] != 0x05)
                || (a.IncompletePacket? && |data| > 2 && |data| < data[2] as int + 4)
  {
  }

  /** The device model takes its fields from the packet as they are; a unit in standby is off, one
      in a known running mode is on, and of any other nothing is claimed. */
  lemma StateFields(data: seq<byte>, available: bool)
    requires |data| >= 11
    ensures var s := FromStatus(Decode(data), available);
            && s.available == available
            && (s.power == OFF <==> data[9] == 0)
            && (s.power == ON <==> data[9] in {1, 2, 4, 5})
            && (s.power == UNKNOWN <==> data[9] == 3 || data[9] > 5)
            && s.mode == Decode(data).mode
            && s.actualTemp == Some(data[7] as real / 2.0) && s.targetTemp == Some(data[8] as real / 2.0)
            && s.ambientTemp == Degrees(data, 17)
            && s.fanPercent == (if data[10] <= 19 then Some(5 + 5 * (data[10] as int)) else None)
            && s.timeRemaining == Some(3600 * (data[4] as int) + 60 * (data[5] as int) + data[6] as int)
            && s.maxRuntime == (if |data| > 12 then Some(3600 * (data[11] as int) + 60 * (data[12] as int)) else None)
            && s.minTarget == Degrees(data, 13) && s.maxTarget == Degrees(data, 14)
            && s.sequenceStep == At(data, 28)
            && s.errors == Decode(data).anomalies
  {
  }
}
