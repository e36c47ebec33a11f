/** `BedJetAPI`: one shape for every way a command can end, and what each shape promises. */
module Api {
  import opened Wrappers
  import opened Constants
  import opened Packets
  import opened DeviceState
  import opened Encode
  import opened CommandRules
  import opened Commanders
  import opened Lease

  datatype Call =
    | TurnOffCall
    | ModeCall(mode: Option<CommandMode>)
    | TemperatureCall(celsius: Option<real>, fahrenheit: Option<real>)
    | FanCall(percent: int)

  /** A `CommandOutcome` without its texts and snapshots, or the exception raised instead. */
  datatype Answer =
    | Outcome(changed: bool, sent: Option<seq<byte>>, dryRun: bool)
    | Unavailable
    | RefusedCall
    | Unverified
    | Crashed

  /** What the answer says about the write calls really made, which is all there is to say: a
      change is exactly one write, of the bytes reported; nothing else claims to have written
      but an unverified one, which wrote once. */
  predicate AnswerMatchesWrites(own: seq<seq<byte>>, answer: Answer) {
    match answer
    case Outcome(changed, sent, dryRun) =>
      && (changed <==> sent.Some?)
      && own == (if sent.Some? then [sent.value] else [])
      && (dryRun ==> !changed)
    case Unavailable => own == []
    case RefusedCall => own == []
    case Unverified => |own| == 1
    case Crashed => |own| <= 1
  }

  /** `_command`'s except clauses. */
  function Translate(end: End, dryRun: bool): Answer {
    match end
    case Done(result) => Outcome(!dryRun, if dryRun then None else Some(result.payload), dryRun)
    case AlreadySatisfied => Outcome(false, None, dryRun)
    case Refused(_) => RefusedCall
    case Rejected(_) => RefusedCall
    case WriteFailed(_) => Unverified
    case NotConfirmed(_) => Unverified
    case AssertionFailed(_) => Crashed
  }

  lemma TranslationIsExact(own: seq<seq<byte>>, end: End, dryRun: bool)
    requires WritesMatchEnd(own, end, dryRun)
    ensures AnswerMatchesWrites(own, Translate(end, dryRun))
  {
  }

  function ToCelsius(fahrenheit: real): real {
    (fahrenheit - 32.0) * 5.0 / 9.0
  }

  function RequestedTarget(call: Call): Option<real>
    requires call.TemperatureCall?
  {
    match (call.celsius, call.fahrenheit)
    case (Some(c), None) => Some(c)
    case (None, Some(f)) => Some(ToCelsius(f))
    case _ => None
  }

  /** Calls refused whatever the link: unknown and locked modes, two units or none, and values no
      byte can carry. */
  predicate RefusedAtOnce(call: Call) {
    match call
    case TurnOffCall => false
    case ModeCall(mode) => mode.None? || mode.value !in UNLOCKED_MODES
    case TemperatureCall(_, _) => RequestedTarget(call).None? || SnapTarget(RequestedTarget(call).value).Failure?
    case FanCall(percent) => !FanPercentInRange(percent)
  }

  /** The request a call makes, once its value has been snapped. */
  function RequestOf(call: Call): Request
    requires !RefusedAtOnce(call)
  {
    match call
    case TurnOffCall => OffRequest
    case ModeCall(mode) => ModeRequest(ExpectedStatusFor(mode.value).value)
    case TemperatureCall(_, _) => TargetRequest(SnapTarget(RequestedTarget(call).value).value)
    case FanCall(percent) => FanRequest(SnapFanPercent(percent).value)
  }

  /** The bytes a call stands for. */
  function BytesFor(call: Call): (bytes: seq<byte>)
    requires !RefusedAtOnce(call)
    ensures |bytes| == 2
  {
    match call
    case TurnOffCall => [0x01, 0x01]
    case ModeCall(mode) => ModeBytes(mode.value)
    case TemperatureCall(_, _) => [0x03, TargetRaw(RequestedTarget(call).value).value]
    case FanCall(percent) => FanSnapIsNearest(percent, 0); [0x07, FanPercentToStep(percent)]
  }

  /** What the baseline alone decides of a call; None means that it writes. */
  function DecideCall(call: Call, r: Reading, dryRun: bool): Option<End>
    requires !RefusedAtOnce(call)
  {
    match call
    case TurnOffCall => Decide([0x01, 0x01], OffRequest, r, dryRun)
    case ModeCall(mode) => DecideMode(mode.value, r, dryRun)
    case TemperatureCall(_, _) => DecideTarget(SnapTarget(RequestedTarget(call).value).value, r, dryRun)
    case FanCall(percent) => DecideFan(SnapFanPercent(percent).value, r, dryRun)
  }

  /** The answer on a baseline: refused on silence, what the baseline decides if it decides, and
      otherwise a change or an unverified write. */
  predicate AnswersOn(base: Baseline, decision: Option<End>, answer: Answer, dryRun: bool) {
    match base
    case Silent => answer == RefusedCall
    case Cleared => answer == Crashed
    case Got(_) =>
      match decision
      case Some(e) => answer == Translate(e, dryRun)
      case None => answer == Unverified || answer == Crashed || (answer.Outcome? && answer.changed == !dryRun)
  }

  lemma TranslationFollows(base: Baseline, decision: Option<End>, end: End, dryRun: bool)
    requires EndsOn(base, decision, end)
    ensures AnswersOn(base, decision, Translate(end, dryRun), dryRun)
  {
  }

  /** What the answer makes of the write call. One that raised is unverified at once; after one
      that returned it gives up no sooner than the settle timeout and at most half a second later,
      and a command on its own answers as the last reading before the deadline says. */
  ghost predicate AnsweredInTime(a: Shared, b: Shared, request: Request, answer: Answer, back: WriteReturn,
                                 settle: real, alone: bool)
  {
    && a.now <= back.at <= b.now
    && (back.raised ==> answer == Unverified && b.now == back.at)
    && (!back.raised ==>
          && b.now < back.at + settle + 0.5
          && (answer == Unverified ==> back.at + settle <= b.now)
          && (alone ==>
                && (answer == Unverified || (answer.Outcome? && answer.changed))
                && FairVerdict(b, request, answer != Unverified, back.at, settle)))
  }

  // ---- the answers in bytes ----------------------------------------------------------------

  /** Fahrenheit is affine in Celsius through the freezing and the boiling point of water. */
  lemma CelsiusIsAffine(f: real)
    ensures ToCelsius(32.0) == 0.0 && ToCelsius(212.0) == 100.0
    ensures ToCelsius(f) * 180.0 == (f - 32.0) * 100.0
  {
  }

  /** What is refused whatever the link: a mode other than off, cool, heat and dry; two units or
      none, or a target that rounds to no byte; a fan percentage outside 5 to 100. */
  lemma RefusedAtOnceIff(call: Call)
    ensures RefusedAtOnce(call) <==>
              match call
              case TurnOffCall => false
              case ModeCall(mode) => mode !in {Some(CmdOff), Some(CmdCool), Some(CmdHeat), Some(CmdDry)}
              case TemperatureCall(Some(c), None) => c < -0.25 || c >= 127.75
              case TemperatureCall(None, Some(f)) =>
                (f - 32.0) * 5.0 / 9.0 < -0.25 || (f - 32.0) * 5.0 / 9.0 >= 127.75
              case TemperatureCall(_, _) => true
              case FanCall(percent) => percent < 5 || 100 < percent
  {
    match call
    case TemperatureCall(Some(c), None) => SnapRefusesIff(c);
    case TemperatureCall(None, Some(f)) => SnapRefusesIff((f - 32.0) * 5.0 / 9.0);
    case _ =>
  }

  /** The bytes sent: for a target the byte nearest to twice its Celsius value, the even one of
      two; for a fan percentage the one step within two percent. */
  lemma BytesForCall(call: Call)
    requires !RefusedAtOnce(call)
    ensures var bytes := BytesFor(call);
            match call
            case TurnOffCall => bytes == [0x01, 0x01]
            case ModeCall(mode) =>
              (mode.value, bytes) in
              {(CmdOff, [0x01, 0x01]), (CmdCool, [0x01, 0x02]), (CmdHeat, [0x01, 0x03]), (CmdDry, [0x01, 0x05])}
            case TemperatureCall(c, f) =>
              bytes[0] == 0x03 && IsHalfEven(2.0 * (if c.Some? then c.value else (f.value - 32.0) * 5.0 / 9.0), bytes[1])
            case FanCall(percent) => bytes[0] == 0x07 && bytes[1] <= 19 && -2 <= percent - (5 + 5 * bytes[1]) <= 2
  {
    match call
    case TemperatureCall(_, _) =>
      var target := RequestedTarget(call).value;
      RoundIsHalfEven(target * TEMP_SCALE, Round(target * TEMP_SCALE));
    case FanCall(percent) => FanSnapIsNearest(percent, 0);
    case _ =>
  }

  /** The packet is one that this call may be tried on. */
  predicate Allows(call: Call, raw: seq<byte>)
    requires !RefusedAtOnce(call)
  {
    && Believable(raw)
    && (call.TemperatureCall? || call.FanCall? ==> Running(raw))
    && (call.TemperatureCall? ==> |raw| > 14 && raw[13] <= BytesFor(call)[1] <= raw[14])
  }

  /** What a baseline decides, by its bytes. */
  predicate DecidesByBytes(call: Call, raw: seq<byte>, decision: Option<End>, dryRun: bool)
    requires !RefusedAtOnce(call)
  {
    if !Allows(call, raw) then decision.Some? && Translate(decision.value, dryRun) == RefusedCall
    else if dryRun || Shows(BytesFor(call), raw) then
      decision.Some? && Translate(decision.value, dryRun) == Outcome(false, None, dryRun)
    else decision.None?
  }

  lemma SimpleCallInBytes(call: Call, r: Reading, dryRun: bool)
    requires !RefusedAtOnce(call) && r.Faithful() && (call.TurnOffCall? || call.ModeCall?)
    ensures DecidesByBytes(call, r.packet.raw, DecideCall(call, r, dryRun), dryRun)
  {
    TrustworthyIff(r.packet.raw);
  }

  lemma TargetCallInBytes(call: Call, r: Reading, dryRun: bool)
    requires !RefusedAtOnce(call) && r.Faithful() && call.TemperatureCall?
    ensures DecidesByBytes(call, r.packet.raw, DecideCall(call, r, dryRun), dryRun)
  {
    var raw, target := r.packet.raw, RequestedTarget(call).value;
    TrustworthyIff(raw);
    SnapIsIdempotent(target);
    if |raw| > 14 {
      TemperatureAcceptedIff(target, raw[13], raw[14]);
      TargetConfirmedIff(target, raw);
    }
  }

  lemma FanCallInBytes(call: Call, r: Reading, dryRun: bool)
    requires !RefusedAtOnce(call) && r.Faithful() && call.FanCall?
    ensures DecidesByBytes(call, r.packet.raw, DecideCall(call, r, dryRun), dryRun)
  {
    TrustworthyIff(r.packet.raw);
    FanSnapIsNearest(call.percent, 0);
  }

  /** The answer on a baseline, by its bytes: refused if the packet does not allow the call,
      unchanged if it shows already what is asked for or nothing is to be sent, and otherwise
      what comes of a write. */
  lemma AnswerInBytes(call: Call, r: Reading, dryRun: bool, answer: Answer)
    requires !RefusedAtOnce(call) && r.Faithful()
    ensures AnswersOn(Got(r), DecideCall(call, r, dryRun), answer, dryRun) <==>
              if !Allows(call, r.packet.raw) then answer == RefusedCall
              else if dryRun || Shows(BytesFor(call), r.packet.raw) then answer == Outcome(false, None, dryRun)
              else answer == Unverified || answer == Crashed || (answer.Outcome? && answer.changed)
  {
    match call
    case TemperatureCall(_, _) => TargetCallInBytes(call, r, dryRun);
    case FanCall(_) => FanCallInBytes(call, r, dryRun);
    case _ => SimpleCallInBytes(call, r, dryRun);
  }

  /** Everything an answer says of a sound call made on a link that is up: it follows from the
      baseline, tells what was written, which is what the call stands for, and is what came of
      that write; a change was confirmed. */
  ghost predicate Answered(a: Shared, b: Shared, me: nat, call: Call, dryRun: bool, base: Baseline, answer: Answer,
                           back: Option<WriteReturn>, settle: real, alone: bool)
    requires !RefusedAtOnce(call)
  {
    && BaselineOk(a, b, base, settle)
    && AnswersOn(base, if base.Got? then DecideCall(call, base.reading, dryRun) else None, answer, dryRun)
    && AnswerMatchesWrites(Own(b.writes, me), answer)
    && (Own(b.writes, me) != [] ==> !dryRun && Own(b.writes, me) == [BytesFor(call)])
    && (back.Some? <==> Own(b.writes, me) != [])
    && (back.Some? ==> AnsweredInTime(a, b, RequestOf(call), answer, back.value, settle, alone))
    && (answer.Outcome? ==> answer.dryRun == dryRun)
    && (answer.Outcome? && answer.changed ==>
          exists result :: Confirmed(b, me, RequestOf(call), result) && result.payload == answer.sent.value)
  }

  lemma TranslationAnswers(a: Shared, b: Shared, me: nat, call: Call, dryRun: bool, base: Baseline, end: End,
                           back: Option<WriteReturn>, settle: real, alone: bool)
    requires !RefusedAtOnce(call) && BaselineOk(a, b, base, settle)
    requires EndsOn(base, if base.Got? then DecideCall(call, base.reading, dryRun) else None, end)
    requires Accounted(a, b, me, RequestOf(call), end, dryRun)
    requires PayloadOf(end).Some? ==> PayloadOf(end).value == BytesFor(call)
    requires Timely(a, b, me, RequestOf(call), end, dryRun, back, settle, alone)
    ensures Answered(a, b, me, call, dryRun, base, Translate(end, dryRun), back, settle, alone)
  {
    TranslationIsExact(Own(b.writes, me), end, dryRun);
    TranslationFollows(base, if base.Got? then DecideCall(call, base.reading, dryRun) else None, end, dryRun);
  }

  class BedJetAPI {
    const commander: Commander
    /** The session's link as the call begins. */
    var link: LinkState

    constructor (commander: Commander, link: LinkState)
      ensures this.commander == commander && this.link == link
    {
      this.commander, this.link := commander, link;
    }

    /** The command itself, once the call has been found sound and the link up. */
    method Dispatch(me: nat, call: Call, dryRun: bool)
      returns (end: End, ghost base: Baseline)
      requires commander.Inv(me) && Own(commander.writes, me) == [] && commander.back.None? && !RefusedAtOnce(call)
      modifies commander
      ensures commander.Inv(me) && Later(old(commander.S()), commander.S())
      ensures Accounted(old(commander.S()), commander.S(), me, RequestOf(call), end, dryRun)
      ensures end.AssertionFailed? ==> EmptiedByAnother(old(commander.S()), commander.S(), me)
      ensures commander.alone ==> !end.AssertionFailed? && OnlyOwn(old(commander.S()), commander.S(), me)
      ensures BaselineOk(old(commander.S()), commander.S(), base, commander.settle)
      ensures EndsOn(base, if base.Got? then DecideCall(call, base.reading, dryRun) else None, end)
      ensures PayloadOf(end).Some? ==> PayloadOf(end).value == BytesFor(call)
      ensures Timely(old(commander.S()), commander.S(), me, RequestOf(call), end, dryRun, commander.back,
                     commander.settle, commander.alone)
    {
      match call {
        case TurnOffCall =>
          end, base := commander.SendOff(me, dryRun);
        case ModeCall(mode) =>
          end, base := commander.ChangeMode(me, mode.value, dryRun);
        case TemperatureCall(_, _) =>
          var snapped := SnapTarget(RequestedTarget(call).value).value;
          SnapIsIdempotent(RequestedTarget(call).value);
          end, base := commander.ChangeTarget(me, snapped, dryRun);
        case FanCall(percent) =>
          var snapped := SnapFanPercent(percent).value;
          FanSnapIsNearest(percent, 0);
          end, base := commander.ChangeFan(me, snapped, dryRun);
      }
    }

    /** Any of the four commands, begun in any steady state. `me` is a command that has written
        nothing yet. */
    method Command(me: nat, call: Call, dryRun: bool)
      returns (answer: Answer, ghost base: Baseline)
      requires commander.Steady() && Own(commander.writes, me) == []
      modifies commander
      ensures commander.Inv(me) && Later(old(commander.S()), commander.S())
      ensures answer == Crashed ==> EmptiedByAnother(old(commander.S()), commander.S(), me)
      ensures commander.alone ==> answer != Crashed && OnlyOwn(old(commander.S()), commander.S(), me)
      ensures RefusedAtOnce(call) ==> answer == RefusedCall
      ensures !RefusedAtOnce(call) && link != CONNECTED ==> answer == Unavailable
      ensures answer == Unavailable ==> link != CONNECTED
      ensures RefusedAtOnce(call) || link != CONNECTED ==> commander.S() == old(commander.S())
      ensures !RefusedAtOnce(call) && link == CONNECTED ==>
                Answered(old(commander.S()), commander.S(), me, call, dryRun, base, answer, commander.back,
                         commander.settle, commander.alone)
    {
      commander.Begin(me);
      base := Silent;
      if RefusedAtOnce(call) {
        return RefusedCall, base;
      }
      if link != CONNECTED {
        return Unavailable, base;
      }
      var end;
      end, base := Dispatch(me, call, dryRun);
      answer := Translate(end, dryRun);
      TranslationAnswers(old(commander.S()), commander.S(), me, call, dryRun, base, end, commander.back,
                         commander.settle, commander.alone);
    }
  }

  // ---- the write alphabet ------------------------------------------------------------------

  /** The byte strings the API can ever put on the wire. */
  predicate InAlphabet(payload: seq<byte>) {
    |payload| == 2 &&
    match payload[0]
    case 0x01 => payload[1] in {1, 2, 3, 5}
    case 0x03 => true
    case 0x07 => payload[1] <= 19
    case _ => false
  }

  /** A believable packet that does not show what is asked for, of a unit that may be asked. */
  predicate AsksForChange(payload: seq<byte>, raw: seq<byte>)
    requires |payload| == 2
  {
    && Believable(raw) && !Shows(payload, raw)
    && (payload[0] != 0x01 ==> Running(raw))
    && (payload[0] == 0x03 ==> |raw| > 14 && raw[13] <= payload[1] <= raw[14])
  }

  /** A write in the alphabet, called on the last reading delivered before it: that packet was
      believable and did not show what was asked for; fan and temperature writes found the unit
      running, and a temperature byte lies between bytes 13 and 14. What confirms the write is a
      believable packet that shows these bytes, and nothing else. */
  ghost predicate OnTheWire(log: seq<Delivery>, w: Write) {
    && InAlphabet(w.payload)
    && 0 < w.seen <= |log| && w.baseline == log[w.seen - 1].reading
    && AsksForChange(w.payload, w.baseline.packet.raw)
    && (forall r: Reading :: r.Faithful() ==>
          (Confirms(w.request, r) <==> Believable(r.packet.raw) && Shows(w.payload, r.packet.raw)))
  }

  lemma LegalIsOnTheWire(log: seq<Delivery>, w: Write)
    requires LegalWrite(log, w) && w.baseline.Faithful()
    ensures OnTheWire(log, w)
  {
    forall r: Reading | r.Faithful()
      ensures Confirms(w.request, r) <==> Believable(r.packet.raw) && Shows(w.payload, r.packet.raw)
    {
      ConfirmedIffShown(w.payload, w.request, w.baseline, r);
    }
    assert Confirms(w.request, w.baseline) <==> Believable(w.baseline.packet.raw) && Shows(w.payload, w.baseline.packet.raw);
    TrustworthyIff(w.baseline.packet.raw);
  }

  // ---- whole sessions of commands ----------------------------------------------------------

  function Payloads(writes: seq<Write>): seq<seq<byte>> {
    if writes == [] then [] else Payloads(writes[..|writes| - 1]) + [Last(writes).payload]
  }

  /** A command that no write so far belongs to. */
  function FreshId(writes: seq<Write>): (id: nat)
    ensures forall k :: 0 <= k < |writes| ==> writes[k].owner < id
  {
    if writes == [] then 0
    else
      var id := FreshId(writes[..|writes| - 1]);
      if Last(writes).owner < id then id else Last(writes).owner + 1
  }

  lemma {:induction false} FreshOwnsNothing(writes: seq<Write>, id: nat)
    requires forall k :: 0 <= k < |writes| ==> writes[k].owner != id
    ensures Own(writes, id) == []
  {
    if writes != [] {
      FreshOwnsNothing(writes[..|writes| - 1], id);
    }
  }

  lemma {:induction false} OwnIsTheRest(a: seq<Write>, b: seq<Write>, id: nat)
    requires a <= b && Own(a, id) == []
    requires forall k :: |a| <= k < |b| ==> b[k].owner == id
    ensures Own(b, id) == Payloads(b[|a|..])
  {
    if |a| < |b| {
      OwnIsTheRest(a, b[..|b| - 1], id);
      assert b[|a|..][..|b[|a|..]| - 1] == b[..|b| - 1][|a|..];
    } else {
      assert a == b;
    }
  }

  /** One call of a session: what is asked, and what the link is then. */
  datatype Errand = Errand(call: Call, dryRun: bool, link: LinkState)

  /** The answer tells what was written, and that is at most what the call stands for. */
  predicate Tells(errand: Errand, answer: Answer, own: seq<seq<byte>>) {
    && AnswerMatchesWrites(own, answer)
    && (own != [] ==> !RefusedAtOnce(errand.call) && !errand.dryRun && own == [BytesFor(errand.call)])
  }

  /** The write calls are accounted for, one errand after the other, by the answers. */
  ghost predicate Explains(errands: seq<Errand>, answers: seq<Answer>, writes: seq<Write>) {
    |answers| == |errands| &&
    if answers == [] then writes == []
    else exists n :: 0 <= n <= |writes| && Explains(errands[..|errands| - 1], answers[..|answers| - 1], writes[..n])
                     && Tells(Last(errands), Last(answers), Payloads(writes[n..]))
  }

  lemma ExplainsMore(errands: seq<Errand>, answers: seq<Answer>, a: seq<Write>, b: seq<Write>, errand: Errand,
                     answer: Answer)
    requires Explains(errands, answers, a) && a <= b && Tells(errand, answer, Payloads(b[|a|..]))
    ensures Explains(errands + [errand], answers + [answer], b)
  {
    var more, asked := answers + [answer], errands + [errand];
    assert more[..|more| - 1] == answers && asked[..|asked| - 1] == errands && b[..|a|] == a;
  }

  /** Anything at all may happen before the call. */
  method RunErrand(commander: Commander, errand: Errand) returns (answer: Answer)
    requires commander.Steady()
    modifies commander
    ensures commander.Steady() && old(commander.writes) <= commander.writes
    ensures commander.alone ==>
              answer != Crashed && Tells(errand, answer, Payloads(commander.writes[|old(commander.writes)|..]))
  {
    var until: real := *;
    if commander.now <= until {
      commander.Elsewhere(0, until, true);
    }
    ghost var before := commander.writes;
    var me := FreshId(commander.writes);
    FreshOwnsNothing(before, me);
    var api := new BedJetAPI(commander, errand.link);
    ghost var base;
    answer, base := api.Command(me, errand.call, errand.dryRun);
    if commander.alone {
      OwnIsTheRest(before, commander.writes, me);
    }
  }

  /** From a new session, any calls one after the other, with anything at all between them, and
      beside them any overlapping commands unless `alone`: whatever is ever written is in the
      alphabet and was checked on the last reading before it; and without overlap nothing is
      written that the answers do not tell. */
  method Serve(settle: real, alone: bool, traffic: nat, now: real, errands: seq<Errand>)
    returns (commander: Commander, answers: seq<Answer>)
    requires settle > 0.0
    ensures commander.alone == alone && |answers| == |errands|
    ensures forall k :: 0 <= k < |commander.writes| ==> OnTheWire(commander.log, commander.writes[k])
    ensures alone ==> Explains(errands, answers, commander.writes) && Crashed !in answers
  {
    commander := new Commander(settle, alone, traffic, now);
    answers := [];
    for i := 0 to |errands|
      invariant fresh(commander) && commander.alone == alone && |answers| == i
      invariant commander.Steady()
      invariant alone ==> Explains(errands[..i], answers, commander.writes) && Crashed !in answers
    {
      ghost var before := commander.writes;
      var answer := RunErrand(commander, errands[i]);
      if alone {
        ExplainsMore(errands[..i], answers, before, commander.writes, errands[i], answer);
        assert errands[..i + 1] == errands[..i] + [errands[i]];
      }
      answers := answers + [answer];
    }
    assert errands[..|errands|] == errands;
    forall k | 0 <= k < |commander.writes| ensures OnTheWire(commander.log, commander.writes[k]) {
      assert LegalWrite(commander.log, commander.writes[k]);
      assert commander.log[commander.writes[k].seen - 1].reading.Faithful();
      LegalIsOnTheWire(commander.log, commander.writes[k]);
    }
  }
}
