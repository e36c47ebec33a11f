/** The device model: what a believed packet means. */
module DeviceState {
  import opened Wrappers
  import opened Constants
  import opened Packets

  datatype Power = ON | OFF | UNKNOWN

  datatype BedJetState = BedJetState(
    available: bool,
    power: Power,
    mode: Option<StatusMode>,
    targetTemp: Option<real>,
    actualTemp: Option<real>,
    ambientTemp: Option<real>,
    fanPercent: Option<int>,
    timeRemaining: Option<nat>,
    sequenceStep: Option<byte>,
    minTarget: Option<real>,
    maxTarget: Option<real>,
    maxRuntime: Option<nat>,
    errors: seq<Anomaly>)

  function PowerOf(mode: Option<StatusMode>): Power {
    match mode
    case Some(STANDBY) => OFF
    case Some(_) => ON
    case None => UNKNOWN
  }

  function FromStatus(packet: StatusPacket, available: bool): BedJetState {
    BedJetState(
      available := available,
      power := PowerOf(packet.mode),
      mode := packet.mode,
      targetTemp := packet.targetTemp,
      actualTemp := packet.actualTemp,
      ambientTemp := packet.ambientTemp,
      fanPercent := packet.fanPercent,
      timeRemaining := packet.timeRemaining,
      sequenceStep := packet.sequenceStep,
      minTarget := packet.minTemp,
      maxTarget := packet.maxTemp,
      maxRuntime := packet.maxRuntime,
      errors := packet.anomalies)
  }

  /** The pair the reader hands to its callback. */
  datatype Reading = Reading(state: BedJetState, packet: StatusPacket)
  {
    /** The state is the packet's, and the packet is what its own bytes decode to. */
    predicate Faithful() {
      && packet == Decode(packet.raw)
      && state == FromStatus(packet, state.available)
    }
  }
  /** A reading, and when the callback was given it. */
  datatype Delivery = Delivery(reading: Reading, at: real)
}
