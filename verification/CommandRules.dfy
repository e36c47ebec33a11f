/**
 The write path's vocabulary: what a command asks for, what may be written for it, and how the
 state that overlapping commands share may change.
 */
module CommandRules {
  import opened Wrappers
  import opened Constants
  import opened Packets
  import opened Checksums
  import opened DeviceState
  import opened Encode

  const QUIET_INTERVAL := 0.5

  const UNLOCKED_MODES: set<CommandMode> := {CmdOff, CmdCool, CmdDry, CmdHeat}

  /** The status mode a command mode should produce; none is known for the others. */
  function ExpectedStatusFor(mode: CommandMode): Option<StatusMode> {
    match mode
    case CmdOff => Some(STANDBY)
    case CmdCool => Some(COOL)
    case CmdDry => Some(DRY)
    case CmdHeat => Some(HEAT)
    case _ => None
  }

  datatype Request =
    | OffRequest
    | ModeRequest(expected: StatusMode)
    | TargetRequest(target: real)
    | FanRequest(percent: int)

  /** The `satisfied` callback each command passes to `_send_verified`. */
  predicate Satisfied(request: Request, state: BedJetState) {
    match request
    case OffRequest => state.mode == Some(STANDBY) || state.power == OFF
    case ModeRequest(expected) => state.mode == Some(expected)
    case TargetRequest(target) => state.targetTemp == Some(target)
    case FanRequest(percent) => state.fanPercent == Some(percent)
  }

  predicate Confirms(request: Request, r: Reading) {
    r.packet.IsTrustworthy() && Satisfied(request, r.state)
  }

  /** One call to `transport.write`: who made it, for what, on which baseline, and how many
      readings had been delivered when it was made. */
  datatype Write = Write(owner: nat, payload: seq<byte>, request: Request, baseline: Reading, seen: nat)

  /** What all commands on one session share, with the log of deliveries and of write calls.
      `observed` is what the observer, the session, keeps of its last call. */
  datatype Shared = Shared(
    latest: Option<Reading>,
    updated: bool,
    observed: Option<Delivery>,
    now: real,
    log: seq<Delivery>,
    writes: seq<Write>)

  // ---- what may be written -----------------------------------------------------------------

  /** The bytes that select an unlocked mode. */
  function ModeBytes(mode: CommandMode): seq<byte>
    requires !mode.CmdTurbo? && !mode.CmdExtendedHeat?
  {
    match mode
    case CmdOff => [0x01, 0x01]
    case CmdCool => [0x01, 0x02]
    case CmdHeat => [0x01, 0x03]
    case CmdDry => [0x01, 0x05]
  }

  /** A status packet reports what these bytes ask for: in byte 9 the mode, under its other code,
      in byte 8 the target, in byte 10 the fan step. */
  predicate Shows(payload: seq<byte>, raw: seq<byte>) {
    |payload| == 2 && |raw| > 10 &&
    match payload[0]
    case 0x01 =>
      (payload[1] == 1 && raw[9] == 0) || (payload[1] == 2 && raw[9] == 4)
      || (payload[1] == 3 && raw[9] == 1) || (payload[1] == 5 && raw[9] == 5)
    case 0x03 => raw[8] == payload[1]
    case 0x07 => raw[10] == payload[1]
    case _ => false
  }

  /** The bytes that may be sent whatever the device reports. */
  predicate AlwaysSendable(payload: seq<byte>, request: Request) {
    match request
    case OffRequest => payload == [0x01, 0x01]
    case ModeRequest(expected) =>
      (payload, expected) in {([0x01, 0x01], STANDBY), ([0x01, 0x02], COOL), ([0x01, 0x03], HEAT), ([0x01, 0x05], DRY)}
    case _ => false
  }

  /** The bytes the write path may send for a request, given the baseline it was checked on. */
  predicate Sendable(payload: seq<byte>, request: Request, baseline: Reading) {
    match request
    case TargetRequest(target) =>
      && |payload| == 2 && payload[0] == 0x03 && target == payload[1] as real / 2.0
      && baseline.state.power == ON
      && |baseline.packet.raw| > 14 && baseline.packet.raw[13] <= payload[1] <= baseline.packet.raw[14]
    case FanRequest(percent) =>
      && |payload| == 2 && payload[0] == 0x07 && 0 <= payload[1] <= 19 && percent == 5 + 5 * payload[1]
      && baseline.state.power == ON
    case _ => AlwaysSendable(payload, request)
  }

  /** A request is confirmed by exactly those believable packets that report the byte sent. */
  lemma ConfirmedIffShown(payload: seq<byte>, request: Request, baseline: Reading, r: Reading)
    requires Sendable(payload, request, baseline) && r.Faithful()
    ensures Confirms(request, r) <==> Believable(r.packet.raw) && Shows(payload, r.packet.raw)
  {
    TrustworthyIff(r.packet.raw);
  }

  lemma ModePayloadIsSendable(mode: CommandMode)
    requires mode in UNLOCKED_MODES
    ensures ExpectedStatusFor(mode).Some?
    ensures !mode.CmdTurbo? && !mode.CmdExtendedHeat? && SetMode(mode) == ModeBytes(mode)
    ensures AlwaysSendable(SetMode(mode), ModeRequest(ExpectedStatusFor(mode).value))
  {
  }

  /** A temperature that passed the range check of the very packet it was checked on. */
  lemma TargetPayloadIsSendable(celsius: real, baseline: Reading)
    requires baseline.Faithful() && baseline.state.power == ON && SnapTarget(celsius).Success?
    requires SetTemperature(SnapTarget(celsius).value, baseline.packet.minTemp, baseline.packet.maxTemp).Success?
    ensures var payload := SetTemperature(SnapTarget(celsius).value, baseline.packet.minTemp, baseline.packet.maxTemp).value;
            payload == [0x03, TargetRaw(celsius).value]
            && Sendable(payload, TargetRequest(SnapTarget(celsius).value), baseline)
  {
    var raw := baseline.packet.raw;
    assert |raw| > MAX_TEMP;
    TemperatureAcceptedIff(celsius, raw[MIN_TEMP], raw[MAX_TEMP]);
  }

  lemma FanPayloadIsSendable(percent: int, baseline: Reading)
    requires FanPercentInRange(percent) && baseline.state.power == ON
    ensures SetFanPercent(SnapFanPercent(percent).value).Success?
    ensures Sendable(SetFanPercent(SnapFanPercent(percent).value).value, FanRequest(SnapFanPercent(percent).value), baseline)
  {
    FanSnapIsNearest(percent, 0);
  }

  /** A write was made on the very last reading delivered before it, which was trustworthy, did
      not yet satisfy the request, and allowed these bytes. */
  predicate LegalWrite(log: seq<Delivery>, w: Write) {
    && 0 < w.seen <= |log|
    && w.baseline == log[w.seen - 1].reading
    && w.baseline.packet.IsTrustworthy()
    && !Satisfied(w.request, w.baseline.state)
    && Sendable(w.payload, w.request, w.baseline)
  }

  /** The payloads one command has written. */
  function Own(writes: seq<Write>, me: nat): seq<seq<byte>> {
    if writes == [] then []
    else Own(writes[..|writes| - 1], me) + if Last(writes).owner == me then [Last(writes).payload] else []
  }

  lemma {:induction false} OwnIgnoresOthers(a: seq<Write>, b: seq<Write>, me: nat)
    requires a <= b && forall k :: |a| <= k < |b| ==> b[k].owner != me
    ensures Own(b, me) == Own(a, me)
  {
    if |a| < |b| {
      OwnIgnoresOthers(a, b[..|b| - 1], me);
    } else {
      assert a == b;
    }
  }

  // ---- how the shared state may change -----------------------------------------------------

  /** Every reading means what its bytes say, and every write was a legal one. */
  ghost predicate Lawful(log: seq<Delivery>, writes: seq<Write>) {
    && (forall i {:trigger log[i].reading.Faithful()} :: 0 <= i < |log| ==> log[i].reading.Faithful())
    && (forall k {:trigger LegalWrite(log, writes[k])} :: 0 <= k < |writes| ==> LegalWrite(log, writes[k]))
  }

  lemma DeliveryIsLawful(log: seq<Delivery>, writes: seq<Write>, d: Delivery)
    requires Lawful(log, writes) && d.reading.Faithful()
    ensures Lawful(log + [d], writes)
  {
    forall i | 0 <= i < |log + [d]| ensures (log + [d])[i].reading.Faithful() {
      assert i < |log| ==> log[i].reading.Faithful();
    }
    forall k | 0 <= k < |writes| ensures LegalWrite(log + [d], writes[k]) {
      assert LegalWrite(log, writes[k]);
    }
  }

  lemma LegalWriteIsLawful(log: seq<Delivery>, writes: seq<Write>, w: Write)
    requires Lawful(log, writes) && LegalWrite(log, w)
    ensures Lawful(log, writes + [w])
  {
    forall k | 0 <= k < |writes + [w]| ensures LegalWrite(log, (writes + [w])[k]) {
      assert k < |writes| ==> LegalWrite(log, writes[k]);
    }
  }

  /** Both caches hold the last reading delivered, or the commander's has been emptied. */
  ghost predicate SharedOk(s: Shared) {
    && (s.updated ==> s.latest.Some?)
    && s.observed == (if s.log == [] then None else Some(Last(s.log)))
    && (s.latest.Some? ==> s.observed.Some? && s.latest.value == s.observed.value.reading)
    && (forall i :: 0 <= i < |s.log| ==> s.log[i].at <= s.now)
    && Lawful(s.log, s.writes)
  }

  predicate Later(a: Shared, b: Shared) {
    a.now <= b.now && a.log <= b.log && a.writes <= b.writes
  }

  lemma LaterIsTransitive(a: Shared, b: Shared, c: Shared)
    requires Later(a, b) && Later(b, c)
    ensures Later(a, c)
  {
  }

  /** Someone has called write since, and nothing has been delivered after that call. */
  predicate Emptied(a: Shared, b: Shared) {
    exists k :: |a.writes| <= k < |b.writes| && b.writes[k].seen == |b.log|
  }

  /** The logs only grow, in time order; only a delivery fills the cache or sets the event; and
      the cache is emptied by a write call and by nothing else. */
  ghost predicate Grows(a: Shared, b: Shared) {
    && SharedOk(b)
    && Later(a, b)
    && (forall i :: |a.log| <= i < |b.log| ==> a.now <= b.log[i].at)
    && (|b.log| == |a.log| && b.latest.Some? ==> b.latest == a.latest)
    && (|b.log| == |a.log| && b.updated ==> a.updated)
    && (b.latest.None? && (a.latest.Some? || |b.log| > |a.log|) ==> Emptied(a, b))
    && (Emptied(a, b) ==> b.latest.None?)
  }

  lemma GrowsIsTransitive(a: Shared, b: Shared, c: Shared)
    requires Grows(a, b) && Grows(b, c)
    ensures Grows(a, c)
  {
    if Emptied(a, c) {
      var k :| |a.writes| <= k < |c.writes| && c.writes[k].seen == |c.log|;
      if k < |b.writes| {
        assert b.writes[k] == c.writes[k] && LegalWrite(b.log, b.writes[k]);
        assert Emptied(a, b);
      } else {
        assert Emptied(b, c);
      }
    } else {
      assert !Emptied(b, c);
      assert forall k :: 0 <= k < |b.writes| ==> b.writes[k] == c.writes[k];
    }
  }

  /** Readings arrived and nothing else happened. */
  ghost predicate OnlyDeliveries(a: Shared, b: Shared) {
    && b.writes == a.writes
    && (if |b.log| == |a.log| then b.latest == a.latest && b.updated == a.updated
        else b.updated && b.log != [] && b.latest == Some(Last(b.log).reading))
  }

  predicate MadeByOthers(a: Shared, b: Shared, me: nat) {
    forall k :: |a.writes| <= k < |b.writes| ==> b.writes[k].owner != me
  }

  /** What a command may find changed after an await: other commands made the new writes, and
      with no other command running there were only deliveries. */
  ghost predicate Disturbed(a: Shared, b: Shared, me: nat, alone: bool) {
    && Grows(a, b)
    && MadeByOthers(a, b, me)
    && (alone ==> OnlyDeliveries(a, b))
  }

  predicate OnlyOwn(a: Shared, b: Shared, me: nat) {
    forall k :: |a.writes| <= k < |b.writes| ==> b.writes[k].owner == me
  }

  /** What a command itself may do between two awaits: what it writes, it writes on the last
      reading delivered. */
  ghost predicate Segment(a: Shared, b: Shared, me: nat) {
    && Grows(a, b) && b.log == a.log && b.now == a.now
    && forall k :: |a.writes| <= k < |b.writes| ==> b.writes[k].owner == me && b.writes[k].seen == |b.log|
  }

  /** The rely covers the guarantee: one command's segments are disturbances to every other. */
  lemma SegmentDisturbsOthers(a: Shared, b: Shared, me: nat, other: nat)
    requires Segment(a, b, me) && other != me
    ensures Disturbed(a, b, other, false)
  {
  }

  lemma DisturbedIsTransitive(a: Shared, b: Shared, c: Shared, me: nat, alone: bool)
    requires Disturbed(a, b, me, alone) && Disturbed(b, c, me, alone)
    ensures Disturbed(a, c, me, alone)
  {
    GrowsIsTransitive(a, b, c);
  }

  /** `_on_state`: both caches are filled in one go, and the event is set. */
  function Deliver(a: Shared, r: Reading): Shared {
    a.(latest := Some(r), updated := true, observed := Some(Delivery(r, a.now)), log := a.log + [Delivery(r, a.now)])
  }

  lemma DeliverDisturbs(a: Shared, r: Reading, me: nat)
    requires SharedOk(a) && r.Faithful()
    ensures Disturbed(a, Deliver(a, r), me, true)
  {
    DeliveryIsLawful(a.log, a.writes, Delivery(r, a.now));
    var b := Deliver(a, r);
    assert Last(b.log) == Delivery(r, a.now);
    assert !Emptied(a, b);
  }

  /** What happens outside every command: time passes, or a reading is delivered. */
  ghost predicate EnvironmentStep(a: Shared, b: Shared) {
    || (a.now <= b.now && b == a.(now := b.now))
    || (exists r: Reading :: r.Faithful() && b == Deliver(a, r))
  }

  /** One step of an overlapped run: a segment of command `owner`, or a step of nobody's. */
  ghost predicate StepOf(a: Shared, b: Shared, owner: Option<nat>) {
    match owner
    case Some(o) => Segment(a, b, o)
    case None => EnvironmentStep(a, b)
  }

  ghost predicate IsRun(trace: seq<Shared>, owners: seq<Option<nat>>) {
    && |trace| == |owners| + 1 && SharedOk(trace[0])
    && forall i :: 0 <= i < |owners| ==> StepOf(trace[i], trace[i + 1], owners[i])
  }

  lemma EnvironmentDisturbs(a: Shared, b: Shared, me: nat)
    requires SharedOk(a) && EnvironmentStep(a, b)
    ensures Disturbed(a, b, me, true)
  {
    if b != a.(now := b.now) || b.now < a.now {
      var r: Reading :| r.Faithful() && b == Deliver(a, r);
      DeliverDisturbs(a, r, me);
    } else {
      assert !Emptied(a, b);
    }
  }

  lemma StepDisturbs(a: Shared, b: Shared, owner: Option<nat>, me: nat, alone: bool)
    requires SharedOk(a) && StepOf(a, b, owner) && owner != Some(me) && (alone ==> owner.None?)
    ensures Disturbed(a, b, me, alone)
  {
    match owner
    case Some(o) => SegmentDisturbsOthers(a, b, o, me);
    case None => EnvironmentDisturbs(a, b, me);
  }

  lemma StayingDisturbsNobody(a: Shared, me: nat)
    requires SharedOk(a)
    ensures Disturbed(a, a, me, true)
  {
  }

  /** Any run in which `me` is suspended, however many other commands and deliveries it holds,
      changes the shared state only as `me` expects of an await; and without other commands
      there are only deliveries. */
  lemma {:induction false} SuspensionIsSound(trace: seq<Shared>, owners: seq<Option<nat>>, me: nat, alone: bool)
    requires IsRun(trace, owners) && Some(me) !in owners
    requires alone ==> forall o :: o in owners ==> o.None?
    ensures Disturbed(trace[0], Last(trace), me, alone)
  {
    var n := |owners|;
    if n == 0 {
      StayingDisturbsNobody(trace[0], me);
    } else {
      var a, b, owner := trace[n - 1], trace[n], owners[n - 1];
      assert owner in owners && StepOf(trace[n - 1], trace[n - 1 + 1], owners[n - 1]);
      SuspensionIsSound(trace[..n], owners[..n - 1], me, alone);
      StepDisturbs(a, b, owner, me, alone);
      DisturbedIsTransitive(trace[0], a, b, me, alone);
    }
  }

  // ---- when the assertions after a wait can fail -------------------------------------------

  /** Another command has called write since, on the last reading delivered. */
  predicate EmptiedByAnother(a: Shared, b: Shared, me: nat) {
    exists k :: |a.writes| <= k < |b.writes| && b.writes[k].owner != me && b.writes[k].seen == |b.log|
  }

  lemma EmptiedByOthers(a: Shared, b: Shared, me: nat)
    requires MadeByOthers(a, b, me)
    ensures Emptied(a, b) <==> EmptiedByAnother(a, b, me)
  {
  }

  lemma EmptiedSinceEarlier(a: Shared, b: Shared, c: Shared, me: nat)
    requires Later(a, b) && EmptiedByAnother(b, c, me)
    ensures EmptiedByAnother(a, c, me)
  {
  }

  /** A command woken by a reading finds the cache empty exactly when another command has called
      write on the last reading delivered while it was suspended. */
  lemma CacheIsEmptyIff(trace: seq<Shared>, owners: seq<Option<nat>>, me: nat)
    requires IsRun(trace, owners) && Some(me) !in owners
    requires |Last(trace).log| > |trace[0].log|
    ensures Last(trace).latest.None? <==> EmptiedByAnother(trace[0], Last(trace), me)
  {
    SuspensionIsSound(trace, owners, me, false);
    EmptiedByOthers(trace[0], Last(trace), me);
  }

  /** A believable packet of a unit that is cooling. */
  lemma ACoolingUnit() returns (r: Reading)
    ensures r.Faithful() && r.packet.IsTrustworthy() && r.state.mode == Some(COOL)
  {
    var body: seq<byte> := [0, PACKET_FORMAT_V3_HOME, 8, 1, 1, 30, 0, 60, 48, 4, 9];
    var raw := body + [ComputeChecksum(body)];
    assert raw[..12] == raw;
    ChecksumIsUnique(body, ComputeChecksum(body));
    TrustworthyIff(raw);
    r := Reading(FromStatus(Decode(raw), true), Decode(raw));
  }

  /** And that really happens: a believable reading wakes both commands, and the other one runs
      first and writes. */
  lemma OverlapCanEmptyTheCache(a: Shared, me: nat, other: nat)
    requires SharedOk(a) && me != other
    ensures exists trace, owners :: IsRun(trace, owners) && trace[0] == a && Some(me) !in owners
              && |Last(trace).log| > |a.log| && Last(trace).latest.None?
              && Last(trace).observed.Some? && Last(trace).observed.value.reading.packet.IsTrustworthy()
  {
    var r := ACoolingUnit();
    var b := Deliver(a, r);
    var w := Write(other, TurnOff(), OffRequest, r, |b.log|);
    var c := b.(latest := None, updated := false, writes := b.writes + [w]);
    DeliverDisturbs(a, r, me);
    assert LegalWrite(b.log, w);
    LegalWriteIsLawful(b.log, b.writes, w);
    assert c.writes[|b.writes|].seen == |c.log|;
    var trace, owners := [a, b, c], [None, Some(other)];
    assert EnvironmentStep(a, b) && Segment(b, c, other);
    assert IsRun(trace, owners);
  }

  // ---- how a command ends ------------------------------------------------------------------

  datatype Refusal = ModeLocked | NoExpectedStatus | NoStatusPacket | UntrustworthyBaseline | NotRunning | NoReportedRange

  /** What `wait_for_state` came back with: a reading, silence, or an emptied cache. */
  datatype Baseline = Got(reading: Reading) | Silent | Cleared

  datatype CommandResult = CommandResult(before: Reading, after: Reading, payload: seq<byte>)

  datatype End =
    | Done(result: CommandResult)
    | Refused(why: Refusal)
    | AlreadySatisfied
    | Rejected(error: CommandError)
    | WriteFailed(payload: seq<byte>)
    | NotConfirmed(payload: seq<byte>)
    | AssertionFailed(sent: Option<seq<byte>>)

  /** The bytes a command came to, if it got that far. */
  function PayloadOf(end: End): Option<seq<byte>> {
    match end
    case Done(result) => Some(result.payload)
    case WriteFailed(payload) => Some(payload)
    case NotConfirmed(payload) => Some(payload)
    case AssertionFailed(sent) => sent
    case _ => None
  }

  /** How and when the environment let a write call come back. */
  datatype WriteReturn = WriteReturn(raised: bool, at: real)

  /** What `_send_verified` does on a baseline: how it ends, if that is decided without writing. */
  function Decide(payload: seq<byte>, request: Request, r: Reading, dryRun: bool): Option<End> {
    if !r.packet.IsTrustworthy() then Some(Refused(UntrustworthyBaseline))
    else if Satisfied(request, r.state) then Some(AlreadySatisfied)
    else if dryRun then Some(Done(CommandResult(r, r, payload)))
    else None
  }

  function DecideMode(mode: CommandMode, r: Reading, dryRun: bool): Option<End>
    requires ExpectedStatusFor(mode).Some?
  {
    Decide(SetMode(mode), ModeRequest(ExpectedStatusFor(mode).value), r, dryRun)
  }

  function DecideTarget(celsius: real, r: Reading, dryRun: bool): Option<End> {
    if r.state.power != ON then Some(Refused(NotRunning))
    else if r.packet.minTemp.None? || r.packet.maxTemp.None? then Some(Refused(NoReportedRange))
    else match SnapTarget(celsius)
         case Failure(e) => Some(Rejected(e))
         case Success(rounded) =>
           match SetTemperature(rounded, r.packet.minTemp, r.packet.maxTemp)
           case Failure(e) => Some(Rejected(e))
           case Success(payload) => Decide(payload, TargetRequest(rounded), r, dryRun)
  }

  function DecideFan(percent: int, r: Reading, dryRun: bool): Option<End> {
    if r.state.power != ON then Some(Refused(NotRunning))
    else match SnapFanPercent(percent)
         case Failure(e) => Some(Rejected(e))
         case Success(snapped) =>
           match SetFanPercent(snapped)
           case Failure(e) => Some(Rejected(e))
           case Success(payload) => Decide(payload, FanRequest(snapped), r, dryRun)
  }

  /** Switching off is written exactly when a believable packet reports a mode byte other than
      standby. */
  lemma OffWrittenIff(r: Reading, dryRun: bool)
    requires r.Faithful()
    ensures Decide(TurnOff(), OffRequest, r, dryRun).None? <==>
              !dryRun && Believable(r.packet.raw) && r.packet.raw[9] != 0x00
  {
    TrustworthyIff(r.packet.raw);
  }

  /** A mode is written exactly when a believable packet does not show it already. */
  lemma ModeWrittenIff(mode: CommandMode, r: Reading, dryRun: bool)
    requires r.Faithful() && !mode.CmdTurbo? && !mode.CmdExtendedHeat?
    ensures ExpectedStatusFor(mode).Some?
    ensures DecideMode(mode, r, dryRun).None? <==>
              !dryRun && Believable(r.packet.raw) && !Shows(ModeBytes(mode), r.packet.raw)
  {
    TrustworthyIff(r.packet.raw);
  }

  /** The mode bytes of a running unit. */
  predicate Running(raw: seq<byte>) {
    |raw| > 9 && raw[9] in {0x01, 0x02, 0x04, 0x05}
  }

  /** A temperature is written exactly when a believable packet of a running unit allows the
      rounded byte and does not report it already. */
  lemma TargetWrittenIff(celsius: real, r: Reading, dryRun: bool)
    requires r.Faithful() && SnapTarget(celsius).Success?
    ensures var raw, sent := r.packet.raw, TargetRaw(celsius).value;
            DecideTarget(celsius, r, dryRun).None? <==>
              && !dryRun && Believable(raw) && Running(raw) && |raw| > 14
              && raw[13] <= sent <= raw[14] && raw[8] != sent
  {
    var raw := r.packet.raw;
    TrustworthyIff(raw);
    if Running(raw) && |raw| > MAX_TEMP {
      TemperatureAcceptedIff(celsius, raw[MIN_TEMP], raw[MAX_TEMP]);
      TargetConfirmedIff(celsius, raw);
    }
  }

  /** A fan speed is written exactly when a believable packet of a running unit does not report
      the snapped step already. */
  lemma FanWrittenIff(percent: int, r: Reading, dryRun: bool)
    requires r.Faithful() && FanPercentInRange(percent)
    ensures var raw := r.packet.raw;
            DecideFan(percent, r, dryRun).None? <==>
              !dryRun && Believable(raw) && Running(raw) && raw[10] != FanPercentToStep(percent)
  {
    var raw := r.packet.raw;
    TrustworthyIff(raw);
    FanSnapIsNearest(percent, 0);
    if |raw| >= MIN_STATUS_LENGTH {
      FanConfirmedIff(percent, raw);
    }
  }

  /** A command that is not decided by its baseline writes. */
  predicate Follows(decision: Option<End>, end: End) {
    match decision
    case Some(e) => end == e
    case None => end.Done? || end.WriteFailed? || end.NotConfirmed? || (end.AssertionFailed? && end.sent.Some?)
  }

  /** A baseline is the cached reading if there is one; without one it is the next reading, and
      silence is a settle timeout without one, but for its last instant. */
  ghost predicate BaselineOk(a: Shared, b: Shared, base: Baseline, settle: real) {
    && (a.latest.Some? ==> base == Got(a.latest.value))
    && (a.latest.None? && base.Got? ==> exists i :: |a.log| <= i < |b.log| && b.log[i].reading == base.reading)
    && (base.Silent? ==>
          && b.now == a.now + settle
          && forall i :: |a.log| <= i < |b.log| ==> b.log[i].at == b.now)
  }

  lemma LaterKeepsBaseline(a: Shared, b: Shared, c: Shared, base: Baseline, settle: real)
    requires BaselineOk(a, b, base, settle) && Later(b, c) && base.Got?
    ensures BaselineOk(a, c, base, settle)
  {
    if a.latest.None? {
      var i :| |a.log| <= i < |b.log| && b.log[i].reading == base.reading;
      assert c.log[i].reading == base.reading;
    }
  }

  /** How a command ends on the baseline it got. */
  predicate EndsOn(base: Baseline, decision: Option<End>, end: End) {
    match base
    case Silent => end == Refused(NoStatusPacket)
    case Cleared => end == AssertionFailed(None)
    case Got(r) => Follows(decision, end) && (end.Done? ==> end.result.before == r)
  }

  /** The command wrote and then watched for its confirmation. */
  predicate Verified(end: End, dryRun: bool) {
    (end.Done? && !dryRun) || end.NotConfirmed?
  }

  /** The write calls a command made, by how it ended. An assertion can only fail because of an
      overlapping command, before the write or after it. */
  predicate WritesMatchEnd(own: seq<seq<byte>>, end: End, dryRun: bool) {
    match end
    case Done(result) => own == if dryRun then [] else [result.payload]
    case WriteFailed(payload) => own == [payload]
    case NotConfirmed(payload) => own == [payload]
    case AssertionFailed(sent) => own == if sent.Some? then [sent.value] else []
    case _ => own == []
  }

  /** A success was asked for on a baseline that did not satisfy it, written once, and confirmed
      by a trustworthy reading delivered after the write call. */
  ghost predicate Confirmed(s: Shared, me: nat, request: Request, result: CommandResult) {
    exists k, i ::
      && 0 <= k < |s.writes|
      && s.writes[k] == Write(me, result.payload, request, result.before, s.writes[k].seen)
      && s.writes[k].seen <= i < |s.log|
      && s.log[i].reading == result.after
      && Confirms(request, result.after)
  }

  /** What every end of a command says about what it did, whoever overlapped with it. */
  ghost predicate Accounted(a: Shared, b: Shared, me: nat, request: Request, end: End, dryRun: bool) {
    && WritesMatchEnd(Own(b.writes, me), end, dryRun)
    && (end.Done? && !dryRun ==> Confirmed(b, me, request, end.result))
    && (end.Done? && dryRun ==>
          end.result.before == end.result.after && end.result.before.packet.IsTrustworthy()
          && !Satisfied(request, end.result.before.state))
    && (end.WriteFailed? || end.NotConfirmed? ==> !dryRun)
    && (end.AlreadySatisfied? ==> b.latest.Some? && Confirms(request, b.latest.value))
  }

  /** For a command that ran alone and began to verify at `begun`: it succeeded exactly when the
      last reading confirms the request and its wake-up was spent, and then at once; and if the
      last reading delivered before the deadline confirms, it succeeded. */
  ghost predicate FairVerdict(s: Shared, request: Request, succeeded: bool, begun: real, settle: real) {
    && s.writes != [] && Last(s.writes).seen <= |s.log|
    && (succeeded <==> |s.log| > Last(s.writes).seen && !s.updated && Confirms(request, Last(s.log).reading))
    && (succeeded ==> s.now == begun || s.now == Last(s.log).at)
    && (!succeeded ==>
          forall i :: Last(s.writes).seen <= i < |s.log| && LastBefore(s.log, i, begun + settle) ==>
            !Confirms(request, s.log[i].reading))
  }

  /** What a command makes of its write call. It fails the write exactly when the call raised;
      after a call that returned it gives up no sooner than the settle timeout and ends within half
      a second of it; and if it was alone its end is the fair verdict on what was delivered. */
  ghost predicate Timely(a: Shared, b: Shared, me: nat, request: Request, end: End, dryRun: bool,
                         back: Option<WriteReturn>, settle: real, alone: bool)
  {
    && (back.Some? <==> Own(b.writes, me) != [])
    && (end.WriteFailed? <==> back.Some? && back.value.raised)
    && (back.Some? ==> a.now <= back.value.at <= b.now)
    && (back.Some? && back.value.raised ==> b.now == back.value.at)
    && (back.Some? && !back.value.raised ==>
          && b.now < back.value.at + settle + 0.5
          && (end.NotConfirmed? ==> back.value.at + settle <= b.now)
          && (alone ==> Verified(end, dryRun) && FairVerdict(b, request, end.Done?, back.value.at, settle)))
  }

  /** A command that ended before it came to its write. */
  lemma EarlyIsAccounted(a: Shared, b: Shared, me: nat, request: Request, end: End, dryRun: bool, settle: real,
                         alone: bool)
    requires Own(b.writes, me) == [] && (end.Refused? || end.Rejected? || end == AssertionFailed(None))
    ensures Accounted(a, b, me, request, end, dryRun)
    ensures Timely(a, b, me, request, end, dryRun, None, settle, alone)
  {
  }

  lemma DecidedIsAccounted(a: Shared, b: Shared, me: nat, payload: seq<byte>, request: Request, base: Baseline,
                           end: End, dryRun: bool)
    requires Own(b.writes, me) == []
    requires base.Got? ==> b.latest == Some(base.reading) && Decide(payload, request, base.reading, dryRun) == Some(end)
    requires !base.Got? ==> EndsOn(base, None, end)
    ensures Accounted(a, b, me, request, end, dryRun)
    ensures EndsOn(base, if base.Got? then Decide(payload, request, base.reading, dryRun) else None, end)
    ensures !end.WriteFailed? && !end.NotConfirmed? && !Verified(end, dryRun)
    ensures end.Done? ==> base.Got? && end.result == CommandResult(base.reading, base.reading, payload)
    ensures end.AssertionFailed? ==> base.Cleared? && end.sent.None?
  {
  }

  // ---- which readings a verification has looked at -----------------------------------------

  /** Reading `i` is the last one delivered before `deadline`. */
  ghost predicate LastBefore(log: seq<Delivery>, i: nat, deadline: real) {
    && i < |log| && log[i].at < deadline
    && forall j :: i < j < |log| ==> log[j].at >= deadline
  }

  /** Of the readings since the write, the last before the deadline does not confirm the request
      unless its wake-up is still pending; nor does the last of all once its wake-up is spent.
      A wake-up is pending only at the instant it came, or since before the verification. */
  ghost predicate Examined(s: Shared, seen: nat, begun: real, settle: real, request: Request) {
    && (forall i :: seen <= i < |s.log| && LastBefore(s.log, i, begun + settle) && (i + 1 == |s.log| ==> !s.updated) ==>
          !Confirms(request, s.log[i].reading))
    && (!s.updated && |s.log| > seen ==> !Confirms(request, Last(s.log).reading))
    && (s.updated ==> s.now == begun || (s.log != [] && Last(s.log).at == s.now))
  }

  lemma ExaminedIsFair(s: Shared, seen: nat, begun: real, settle: real, request: Request)
    requires Examined(s, seen, begun, settle, request) && settle > 0.0 && begun + settle <= s.now
    requires s.writes != [] && Last(s.writes).seen == seen <= |s.log|
    ensures FairVerdict(s, request, false, begun, settle)
  {
    if s.updated {
      assert s.log != [] && Last(s.log).at == s.now;
    }
  }

  /** One turn of the verification loop, for a command that is alone: `b` is the state when its
      wait ended, and the reading that ended it did not confirm, if it was looked at. */
  lemma TurnKeepsExamined(a: Shared, b: Shared, looked: bool, seen: nat, begun: real, settle: real, request: Request)
    requires Examined(a, seen, begun, settle, request) && seen <= |a.log|
    requires a.log <= b.log && OnlyDeliveries(a, b) && a.now < begun + settle
    requires forall i :: |a.log| <= i < |b.log| ==> b.log[i].at == b.now
    requires a.updated ==> looked && b.now == a.now
    requires looked ==> |b.log| > seen && !Confirms(request, Last(b.log).reading)
    ensures Examined(b.(updated := b.updated && !looked), seen, begun, settle, request)
  {
    var c, deadline := b.(updated := b.updated && !looked), begun + settle;
    assert a.updated && |b.log| > |a.log| ==> b.log[|a.log|].at < deadline;
    forall i | seen <= i < |c.log| && LastBefore(c.log, i, deadline) && (i + 1 == |c.log| ==> !c.updated)
      ensures !Confirms(request, c.log[i].reading)
    {
      if i + 1 == |b.log| && looked {
        assert b.log[i] == Last(b.log);
      } else if i < |a.log| {
        assert a.log[i] == b.log[i];
        assert forall j :: i < j < |a.log| ==> a.log[j] == b.log[j];
        assert LastBefore(a.log, i, deadline);
      }
    }
  }
}
