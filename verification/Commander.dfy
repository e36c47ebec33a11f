/**
 `Commander`, with its awaits.

 An await is a method whose body lets other tasks run for any number of steps: readings are
 delivered, time passes and, unless this command is `alone`, segments of other commands run.
 The segment since the last await must be one that other commands can rely on (`Inv`), so what
 is proved of one command holds however many overlap with it.

 Two readings of asyncio are built in. A task woken by the event runs before time moves on. And
 when the event is set and a `wait_for` times out at the same instant, the timeout can win: the
 wait then ends as timed out although the event is set. Whether a `wait_for` on an event already
 set suspends at all differs between Python 3.11 and 3.12; here it may.
 */
module Commanders {
  import opened Wrappers
  import opened Constants
  import opened Packets
  import opened DeviceState
  import opened Encode
  import opened CommandRules

  /** One turn of the verification loop. */
  datatype Turn = Quiet | Unmoved | Met(after: Reading) | Vanished

  /** A turn that ended quiet or unmoved, seen from the states around it. */
  lemma TurnExamines(a: Shared, b: Shared, turn: Turn, seen: nat, begun: real, settle: real, request: Request)
    requires Examined(a, seen, begun, settle, request) && seen <= |a.log| && a.now < begun + settle
    requires turn.Quiet? || turn.Unmoved?
    requires a.log <= b.log && OnlyDeliveries(a, b.(updated := b.updated || turn.Unmoved?))
    requires forall i :: |a.log| <= i < |b.log| ==> b.log[i].at == b.now
    requires a.updated ==> turn.Unmoved? && b.now == a.now
    requires turn.Unmoved? ==> !b.updated && |b.log| > seen && !Confirms(request, Last(b.log).reading)
    ensures Examined(b, seen, begun, settle, request)
  {
    var looked := turn.Unmoved?;
    var c := b.(updated := b.updated || looked);
    TurnKeepsExamined(a, c, looked, seen, begun, settle, request);
    assert b == c.(updated := c.updated && !looked);
  }

  /** A turn that met its confirmation, for a command that is alone. */
  lemma MetIsFair(a: Shared, b: Shared, seen: nat, begun: real, settle: real, request: Request)
    requires Examined(a, seen, begun, settle, request) && a.log <= b.log && seen < |b.log|
    requires OnlyDeliveries(a, b.(updated := true)) && !b.updated
    requires forall i :: |a.log| <= i < |b.log| ==> b.log[i].at == b.now
    requires a.updated ==> b.now == a.now
    requires Confirms(request, Last(b.log).reading)
    requires b.writes != [] && Last(b.writes).seen == seen
    ensures FairVerdict(b, request, true, begun, settle)
  {
  }

  class Commander {
    const settle: real
    /** Whether no other command overlaps with this one. */
    const alone: bool
    /** How many readings are ever delivered: any finite number. */
    const traffic: nat

    var latest: Option<Reading>
    var updated: bool
    /** What the observer, the session, keeps of the last call it got. */
    var observed: Option<Delivery>
    var now: real
    // the logs
    var log: seq<Delivery>
    var writes: seq<Write>
    /** The shared state when the present segment began. */
    ghost var mark: Shared
    /** How the write call of the command that last began came back: the environment's own record,
        which only `AwaitWrite` fills. */
    ghost var back: Option<WriteReturn>

    ghost function S(): Shared
      reads this
    {
      Shared(latest, updated, observed, now, log, writes)
    }

    /** What holds whenever nothing is running. */
    ghost predicate Steady()
      reads this
    {
      settle > 0.0 && |log| <= traffic && SharedOk(S())
    }

    ghost predicate Inv(me: nat)
      reads this
    {
      Steady() && Segment(mark, S(), me)
    }

    constructor (settle: real, alone: bool, traffic: nat, now: real)
      requires settle > 0.0
      ensures Steady() && S() == Shared(None, false, None, now, [], [])
      ensures this.settle == settle && this.alone == alone && this.traffic == traffic
    {
      this.settle, this.alone, this.traffic := settle, alone, traffic;
      latest, updated, observed, this.now, log, writes := None, false, None, now, [], [];
      mark, back := Shared(None, false, None, now, [], []), None;
    }

    /** A command's first segment begins. */
    ghost method Begin(me: nat)
      requires Steady()
      modifies this`mark, this`back
      ensures Inv(me) && S() == old(S()) && back.None?
    {
      mark, back := S(), None;
    }

    // ---- the environment -------------------------------------------------------------------

    /** `_on_state`: the reader's callback. */
    method OnState(r: Reading)
      requires SharedOk(S()) && r.Faithful()
      modifies this`latest, this`updated, this`observed, this`log
      ensures S() == Deliver(old(S()), r)
    {
      latest := Some(r);
      updated := true;
      log := log + [Delivery(r, now)];
      observed := Some(Delivery(r, now));
    }

    /** One segment of some other command: it clears the event, or clears the cache and writes. */
    method OtherSegment(me: nat)
      requires SharedOk(S()) && !alone
      modifies this`latest, this`updated, this`writes
      ensures Disturbed(old(S()), S(), me, alone)
    {
      updated := false;
      var w: Write := *;
      if w.owner != me && w.seen == |log| && LegalWrite(log, w) {
        latest := None;
        LegalWriteIsLawful(log, writes, w);
        writes := writes + [w];
        assert writes[|old(writes)|].seen == |log|;
      }
    }

    /** Other tasks run for any number of steps, and time passes until at most `until`. */
    method Elsewhere(me: nat, until: real, deliveries: bool)
      requires SharedOk(S()) && now <= until && |log| <= traffic
      modifies this`latest, this`updated, this`observed, this`now, this`log, this`writes
      ensures Disturbed(old(S()), S(), me, alone) && now <= until && |log| <= traffic
      ensures !deliveries ==> log == old(log)
    {
      var steps: nat := *;
      while steps > 0
        invariant Disturbed(old(S()), S(), me, alone) && now <= until && |log| <= traffic
        invariant !deliveries ==> log == old(log)
      {
        ghost var before := S();
        var deliver: bool, interfere: bool := *, *;
        if deliver && deliveries && |log| < traffic {
          var r: Reading := *;
          if r.Faithful() {
            DeliverDisturbs(S(), r, me);
            OnState(r);
          }
        } else if interfere && !alone {
          OtherSegment(me);
        } else {
          var t: real := *;
          if now <= t <= until {
            now := t;
          }
        }
        assert Disturbed(before, S(), me, alone);
        DisturbedIsTransitive(old(S()), before, S(), me, alone);
        steps := steps - 1;
      }
    }

    // ---- awaits ----------------------------------------------------------------------------

    /** Time passes without a delivery until the first one, or until `deadline`. */
    method NextDelivery(me: nat, deadline: real) returns (woken: bool)
      requires SharedOk(S()) && now <= deadline && |log| <= traffic
      modifies this`latest, this`updated, this`observed, this`now, this`log, this`writes
      ensures Disturbed(old(S()), S(), me, alone) && now <= deadline && |log| <= traffic
      ensures woken <==> |log| > |old(log)|
      ensures !woken ==> now == deadline
      ensures forall i :: |old(log)| <= i < |log| ==> log[i].at == now
    {
      Elsewhere(me, deadline, false);
      ghost var before := S();
      var arrives: bool, r: Reading := *, *;
      woken := arrives && |log| < traffic && r.Faithful();
      if woken {
        DeliverDisturbs(S(), r, me);
        OnState(r);
      } else {
        now := deadline;
      }
      DisturbedIsTransitive(old(S()), before, S(), me, alone);
    }

    /** `await asyncio.wait_for(self._updated.wait(), timeout)` */
    method WaitUpdated(me: nat, timeout: real) returns (timedOut: bool)
      requires Inv(me) && timeout > 0.0
      modifies this`latest, this`updated, this`observed, this`now, this`log, this`writes, this`mark
      ensures Inv(me) && Disturbed(old(S()), S(), me, alone)
      // An event already set costs no time.
      ensures old(updated) ==> !timedOut && now == old(now)
      ensures now <= old(now) + timeout
      ensures timedOut ==> now == old(now) + timeout
      ensures !old(updated) && !timedOut ==> |log| > |old(log)|
      // Whatever arrived, arrived at the instant the wait ended.
      ensures forall i :: |old(log)| <= i < |log| ==> log[i].at == now
    {
      if updated {
        var suspends: bool := *;
        if suspends {
          Elsewhere(me, now, true);
        }
        mark := S();
        return false;
      }
      var deadline := now + timeout;
      var woken := NextDelivery(me, deadline);
      ghost var before := S();
      Elsewhere(me, now, true);
      DisturbedIsTransitive(old(S()), before, S(), me, alone);
      var timerWins: bool := *;
      timedOut := !woken || (now == deadline && timerWins);
      mark := S();
    }

    /** `await self._transport.write(...)`; false stands for a TransportError. */
    method AwaitWrite(me: nat) returns (ok: bool)
      requires Inv(me)
      modifies this`latest, this`updated, this`observed, this`now, this`log, this`writes, this`mark, this`back
      ensures Inv(me) && Disturbed(old(S()), S(), me, alone)
      ensures back == Some(WriteReturn(!ok, now))
    {
      var until: real := *;
      if now <= until {
        Elsewhere(me, until, true);
      }
      mark := S();
      ok := *;
      back := Some(WriteReturn(!ok, now));
    }

    // ---- commands --------------------------------------------------------------------------

    /** `wait_for_state`: the cached reading, or the next one. */
    method WaitForState(me: nat) returns (b: Baseline)
      requires Inv(me)
      modifies this`latest, this`updated, this`observed, this`now, this`log, this`writes, this`mark
      ensures Inv(me) && Later(old(S()), S()) && Own(writes, me) == Own(old(writes), me)
      ensures old(latest).Some? ==> b == Got(old(latest).value) && S() == old(S())
      ensures b.Got? ==> latest == Some(b.reading)
      ensures BaselineOk(old(S()), S(), b, settle) && now <= old(now) + settle
      // The assertion after the wait fails exactly when another command has written meanwhile, on
      // the last reading delivered.
      ensures !b.Silent? ==> (b.Cleared? <==> EmptiedByAnother(old(S()), S(), me))
      ensures alone ==> !b.Cleared? && writes == old(writes)
    {
      if latest.Some? {
        return Got(latest.value);
      }
      updated := false;
      ghost var before := S();
      var timedOut := WaitUpdated(me, settle);
      OwnIgnoresOthers(before.writes, writes, me);
      if timedOut {
        return Silent;
      }
      EmptiedByOthers(before, S(), me);
      b := if latest.Some? then Got(latest.value) else Cleared;
    }

    /** The write call: the event and the cache are cleared, the bytes go out. */
    method CallWrite(me: nat, payload: seq<byte>, request: Request, baseline: Reading)
      requires Inv(me) && latest == Some(baseline)
      requires baseline.packet.IsTrustworthy() && !Satisfied(request, baseline.state)
      requires Sendable(payload, request, baseline)
      modifies this`latest, this`updated, this`writes
      ensures Inv(me) && Later(old(S()), S()) && latest.None? && !updated
      ensures writes == old(writes) + [Write(me, payload, request, baseline, |log|)]
      ensures Own(writes, me) == Own(old(writes), me) + [payload]
    {
      updated := false;
      latest := None;
      LegalWriteIsLawful(log, writes, Write(me, payload, request, baseline, |log|));
      writes := writes + [Write(me, payload, request, baseline, |log|)];
      assert writes[..|writes| - 1] == old(writes) && writes[|old(writes)|].seen == |log|;
    }

    /** The body of the verification loop: wait for news, spend it, look at the latest packet. */
    method LookOnce(me: nat, request: Request) returns (turn: Turn)
      requires Inv(me)
      modifies this`latest, this`updated, this`observed, this`now, this`log, this`writes, this`mark
      ensures Inv(me) && Later(old(S()), S()) && Own(writes, me) == Own(old(writes), me)
      ensures now <= old(now) + QUIET_INTERVAL
      ensures turn.Quiet? ==> now == old(now) + QUIET_INTERVAL && !old(updated)
      ensures !turn.Quiet? ==> !updated && (old(updated) || |log| > |old(log)|)
      ensures turn.Unmoved? ==> latest.Some? && !Confirms(request, latest.value)
      ensures turn.Met? ==> latest == Some(turn.after) && Confirms(request, turn.after)
      ensures forall i :: |old(log)| <= i < |log| ==> log[i].at == now
      ensures |log| == |old(log)| && latest.Some? ==> latest == old(latest)
      ensures old(updated) ==> now == old(now)
      ensures !turn.Quiet? ==> (turn.Vanished? <==> EmptiedByAnother(old(S()), S(), me))
      ensures alone ==> !turn.Vanished? && writes == old(writes)
      ensures alone ==> OnlyDeliveries(old(S()), S().(updated := updated || !turn.Quiet?))
    {
      var timedOut := WaitUpdated(me, QUIET_INTERVAL);
      OwnIgnoresOthers(old(writes), writes, me);
      if timedOut {
        return Quiet;
      }
      EmptiedByOthers(old(S()), S(), me);
      updated := false;
      if latest.None? {
        return Vanished;
      }
      if !latest.value.packet.IsTrustworthy() || !Satisfied(request, latest.value.state) {
        return Unmoved;
      }
      turn := Met(latest.value);
    }

    /** One turn of the verification loop, and what it leaves examined for a command that is alone. */
    method TakeTurn(me: nat, request: Request, ghost seen: nat, ghost begun: real) returns (turn: Turn)
      requires Inv(me) && seen <= |log| && (latest.Some? ==> |log| > seen)
      requires alone ==>
                 && writes != [] && Last(writes).seen == seen
                 && now < begun + settle && Examined(S(), seen, begun, settle, request)
      modifies this`latest, this`updated, this`observed, this`now, this`log, this`writes, this`mark
      ensures Inv(me) && Later(old(S()), S()) && Own(writes, me) == Own(old(writes), me)
      ensures latest.Some? ==> |log| > seen
      ensures now <= old(now) + QUIET_INTERVAL
      ensures turn.Quiet? ==> now == old(now) + QUIET_INTERVAL
      ensures turn.Unmoved? ==> |log| > |old(log)| || (old(updated) && !updated && now == old(now))
      ensures turn.Met? ==> latest == Some(turn.after) && Confirms(request, turn.after)
      ensures turn.Vanished? ==> EmptiedByAnother(old(S()), S(), me)
      ensures alone ==> !turn.Vanished? && writes == old(writes)
      ensures alone ==> if turn.Met? then FairVerdict(S(), request, true, begun, settle)
                        else Examined(S(), seen, begun, settle, request)
    {
      turn := LookOnce(me, request);
      if alone && turn.Met? {
        MetIsFair(old(S()), S(), seen, begun, settle, request);
      } else if alone {
        TurnExamines(old(S()), S(), turn, seen, begun, settle, request);
      }
    }

    /** The verification loop, begun when the write call has returned. */
    method Verify(me: nat, request: Request, ghost seen: nat) returns (turn: Turn)
      requires Inv(me) && seen <= |log|
      requires latest.Some? ==> |log| > seen
      requires alone ==> (|log| > seen ==> updated) && writes != [] && Last(writes).seen == seen
      modifies this`latest, this`updated, this`observed, this`now, this`log, this`writes, this`mark
      ensures Inv(me) && Later(old(S()), S()) && Own(writes, me) == Own(old(writes), me)
      ensures turn.Met? ==> latest == Some(turn.after) && Confirms(request, turn.after) && |log| > seen
      ensures now < old(now) + settle + QUIET_INTERVAL
      ensures turn.Met? || turn.Vanished? || turn.Quiet?
      ensures turn.Vanished? ==> EmptiedByAnother(old(S()), S(), me)
      ensures alone ==> !turn.Vanished? && writes == old(writes)
      ensures turn.Quiet? ==> old(now) + settle <= now
      ensures alone ==> FairVerdict(S(), request, turn.Met?, old(now), settle)
    {
      var deadline := now + settle;
      while now < deadline
        invariant Inv(me) && Later(old(S()), S()) && Own(writes, me) == Own(old(writes), me)
        invariant seen <= |log| && now < deadline + QUIET_INTERVAL
        invariant latest.Some? ==> |log| > seen
        invariant alone ==> Examined(S(), seen, old(now), settle, request) && writes == old(writes)
        decreases traffic - |log|, (deadline - now) * 2.0, if updated then 1 else 0
      {
        ghost var before := S();
        turn := TakeTurn(me, request, seen, old(now));
        LaterIsTransitive(old(S()), before, S());
        if turn.Met? {
          return;
        }
        if turn.Vanished? {
          EmptiedSinceEarlier(old(S()), before, S(), me);
          return;
        }
      }
      if alone {
        ExaminedIsFair(S(), seen, old(now), settle, request);
      }
      turn := Quiet;
    }

    /** The write call and its await. */
    method WriteOnce(me: nat, payload: seq<byte>, request: Request, before: Reading) returns (ok: bool)
      requires Inv(me) && Own(writes, me) == [] && latest == Some(before)
      requires before.packet.IsTrustworthy() && !Satisfied(request, before.state)
      requires Sendable(payload, request, before)
      modifies this`latest, this`updated, this`observed, this`now, this`log, this`writes, this`mark, this`back
      ensures Inv(me) && Later(old(S()), S()) && Own(writes, me) == [payload]
      ensures back == Some(WriteReturn(!ok, now))
      ensures |writes| > |old(writes)|
      ensures writes[|old(writes)|] == Write(me, payload, request, before, |old(log)|)
      ensures latest.Some? ==> |log| > |old(log)|
      ensures alone ==> |writes| == |old(writes)| + 1 && (|log| > |old(log)| ==> updated)
    {
      CallWrite(me, payload, request, before);
      ghost var called := writes;
      ok := AwaitWrite(me);
      OwnIgnoresOthers(called, writes, me);
      assert writes[|old(writes)|] == called[|old(writes)|];
    }

    /** The second half of `_send_verified`, from the write on. */
    method WriteAndVerify(me: nat, payload: seq<byte>, request: Request, before: Reading)
      returns (end: End)
      requires Inv(me) && Own(writes, me) == [] && latest == Some(before)
      requires before.packet.IsTrustworthy() && !Satisfied(request, before.state)
      requires Sendable(payload, request, before)
      modifies this`latest, this`updated, this`observed, this`now, this`log, this`writes, this`mark, this`back
      ensures Inv(me) && Later(old(S()), S())
      ensures end.Done? || end.WriteFailed? || end.NotConfirmed? || end.AssertionFailed?
      ensures WritesMatchEnd(Own(writes, me), end, false)
      ensures end.Done? ==> end.result.payload == payload && end.result.before == before
      ensures end.Done? ==> Confirmed(S(), me, request, end.result)
      ensures PayloadOf(end) == Some(payload)
      ensures end.AssertionFailed? ==> EmptiedByAnother(old(S()), S(), me)
      ensures alone ==> !end.AssertionFailed?
      ensures alone ==> OnlyOwn(old(S()), S(), me)
      ensures Timely(old(S()), S(), me, request, end, false, back, settle, alone)
    {
      ghost var seen, k := |log|, |writes|;
      var ok := WriteOnce(me, payload, request, before);
      if !ok {
        return WriteFailed(payload);
      }
      ghost var s1 := S();
      var turn := Verify(me, request, seen);
      LaterIsTransitive(old(S()), s1, S());
      match turn {
        case Met(after) =>
          assert writes[k] == s1.writes[k];
          end := Done(CommandResult(before, after, payload));
        case Vanished => end := AssertionFailed(Some(payload));
        case _ => end := NotConfirmed(payload);
      }
    }

    /** The first half of `_send_verified`: the baseline, and whether it already decides. */
    method CheckBaseline(me: nat, payload: seq<byte>, request: Request, dryRun: bool)
      returns (b: Baseline, decided: Option<End>)
      requires Inv(me)
      modifies this`latest, this`updated, this`observed, this`now, this`log, this`writes, this`mark
      ensures Inv(me) && Later(old(S()), S()) && Own(writes, me) == Own(old(writes), me)
      ensures BaselineOk(old(S()), S(), b, settle)
      ensures old(latest).Some? ==> S() == old(S())
      ensures b.Got? ==> latest == Some(b.reading) && decided == Decide(payload, request, b.reading, dryRun)
      ensures !b.Got? ==> decided.Some? && EndsOn(b, None, decided.value)
      ensures b.Cleared? ==> EmptiedByAnother(old(S()), S(), me)
      ensures alone ==> !b.Cleared? && writes == old(writes)
    {
      b := WaitForState(me);
      if b.Silent? {
        return b, Some(Refused(NoStatusPacket));
      }
      if b.Cleared? {
        return b, Some(AssertionFailed(None));
      }
      var before := b.reading;
      if !before.packet.IsTrustworthy() {
        return b, Some(Refused(UntrustworthyBaseline));
      }
      if Satisfied(request, before.state) {
        return b, Some(AlreadySatisfied);
      }
      if dryRun {
        return b, Some(Done(CommandResult(before, before, payload)));
      }
      decided := None;
    }

    /** `_send_verified` */
    method SendVerified(me: nat, payload: seq<byte>, request: Request, dryRun: bool)
      returns (end: End, ghost base: Baseline)
      requires Inv(me) && Own(writes, me) == [] && back.None?
      requires latest.Some? ==> Sendable(payload, request, latest.value)
      requires latest.None? ==> AlwaysSendable(payload, request)
      modifies this`latest, this`updated, this`observed, this`now, this`log, this`writes, this`mark, this`back
      ensures Inv(me) && Later(old(S()), S())
      ensures Accounted(old(S()), S(), me, request, end, dryRun)
      ensures EndsOn(base, if base.Got? then Decide(payload, request, base.reading, dryRun) else None, end)
      ensures BaselineOk(old(S()), S(), base, settle)
      ensures end.Done? ==> end.result.payload == payload && Sendable(payload, request, end.result.before)
      ensures PayloadOf(end).Some? ==> PayloadOf(end).value == payload
      ensures end.AssertionFailed? ==> EmptiedByAnother(old(S()), S(), me)
      ensures alone ==> !end.AssertionFailed? && OnlyOwn(old(S()), S(), me)
      ensures Timely(old(S()), S(), me, request, end, dryRun, back, settle, alone)
    {
      var b, decided := CheckBaseline(me, payload, request, dryRun);
      base := b;
      assert b.Got? ==> Sendable(payload, request, b.reading);
      if decided.Some? {
        DecidedIsAccounted(old(S()), S(), me, payload, request, base, decided.value, dryRun);
        return decided.value, base;
      }
      ghost var s1 := S();
      end := WriteAndVerify(me, payload, request, b.reading);
      assert Later(s1, S());
      assert Decide(payload, request, b.reading, dryRun).None?;
      LaterIsTransitive(old(S()), s1, S());
      LaterKeepsBaseline(old(S()), s1, S(), base, settle);
    }

    /** `send_off` */
    method SendOff(me: nat, dryRun: bool) returns (end: End, ghost base: Baseline)
      requires Inv(me) && Own(writes, me) == [] && back.None?
      modifies this`latest, this`updated, this`observed, this`now, this`log, this`writes, this`mark, this`back
      ensures Inv(me) && Later(old(S()), S())
      ensures Accounted(old(S()), S(), me, OffRequest, end, dryRun)
      ensures EndsOn(base, if base.Got? then Decide([0x01, 0x01], OffRequest, base.reading, dryRun) else None, end)
      ensures BaselineOk(old(S()), S(), base, settle)
      ensures end.AssertionFailed? ==> EmptiedByAnother(old(S()), S(), me)
      ensures alone ==> !end.AssertionFailed? && OnlyOwn(old(S()), S(), me)
      ensures PayloadOf(end).Some? ==> PayloadOf(end).value == [0x01, 0x01]
      ensures Timely(old(S()), S(), me, OffRequest, end, dryRun, back, settle, alone)
    {
      end, base := SendVerified(me, TurnOff(), OffRequest, dryRun);
    }

    /** `set_mode`: locked modes are refused before anything is awaited. */
    method ChangeMode(me: nat, mode: CommandMode, dryRun: bool)
      returns (end: End, ghost base: Baseline)
      requires Inv(me) && Own(writes, me) == [] && back.None?
      modifies this`latest, this`updated, this`observed, this`now, this`log, this`writes, this`mark, this`back
      ensures Inv(me) && Later(old(S()), S())
      ensures end.AssertionFailed? ==> EmptiedByAnother(old(S()), S(), me)
      ensures alone ==> !end.AssertionFailed? && OnlyOwn(old(S()), S(), me)
      ensures mode.CmdTurbo? || mode.CmdExtendedHeat? <==> end == Refused(ModeLocked)
      ensures mode.CmdTurbo? || mode.CmdExtendedHeat? ==> S() == old(S()) && back.None?
      ensures !mode.CmdTurbo? && !mode.CmdExtendedHeat? ==>
                && (PayloadOf(end).Some? ==> PayloadOf(end).value == ModeBytes(mode))
                && ExpectedStatusFor(mode).Some?
                && Accounted(old(S()), S(), me, ModeRequest(ExpectedStatusFor(mode).value), end, dryRun)
                && EndsOn(base, if base.Got? then DecideMode(mode, base.reading, dryRun) else None, end)
                && BaselineOk(old(S()), S(), base, settle)
                && Timely(old(S()), S(), me, ModeRequest(ExpectedStatusFor(mode).value), end, dryRun, back, settle,
                          alone)
    {
      base := Silent;
      if mode !in UNLOCKED_MODES {
        return Refused(ModeLocked), base;
      }
      var expected := ExpectedStatusFor(mode);
      if expected.None? {
        return Refused(NoExpectedStatus), base;
      }
      ModePayloadIsSendable(mode);
      end, base := SendVerified(me, SetMode(mode), ModeRequest(expected.value), dryRun);
    }

    /** What `set_temperature` asks of its packet before it sends anything: a running unit, a
        reported range, and a rounded value inside it. */
    method CheckTarget(celsius: real, r: Reading, dryRun: bool)
      returns (early: Option<End>, rounded: real, payload: seq<byte>)
      requires r.Faithful()
      ensures early.Some? ==>
                DecideTarget(celsius, r, dryRun) == early && (early.value.Refused? || early.value.Rejected?)
      ensures early.None? ==>
                && SnapTarget(celsius) == Success(rounded) && payload == [0x03, TargetRaw(celsius).value]
                && Sendable(payload, TargetRequest(rounded), r)
                && DecideTarget(celsius, r, dryRun) == Decide(payload, TargetRequest(rounded), r, dryRun)
    {
      rounded, payload := 0.0, [];
      if r.state.power != ON {
        return Some(Refused(NotRunning)), rounded, payload;
      }
      if r.packet.minTemp.None? || r.packet.maxTemp.None? {
        return Some(Refused(NoReportedRange)), rounded, payload;
      }
      var snapped := SnapTarget(celsius);
      if snapped.Failure? {
        return Some(Rejected(snapped.error)), rounded, payload;
      }
      var encoded := SetTemperature(snapped.value, r.packet.minTemp, r.packet.maxTemp);
      if encoded.Failure? {
        return Some(Rejected(encoded.error)), rounded, payload;
      }
      TargetPayloadIsSendable(celsius, r);
      early, rounded, payload := None, snapped.value, encoded.value;
    }

    /** `set_temperature` from the packet that becomes the baseline. */
    method SendTarget(me: nat, celsius: real, r: Reading, dryRun: bool) returns (end: End)
      requires Inv(me) && Own(writes, me) == [] && back.None? && latest == Some(r) && r.Faithful()
      modifies this`latest, this`updated, this`observed, this`now, this`log, this`writes, this`mark, this`back
      ensures Inv(me) && Later(old(S()), S())
      ensures end.AssertionFailed? ==> EmptiedByAnother(old(S()), S(), me)
      ensures alone ==> !end.AssertionFailed? && OnlyOwn(old(S()), S(), me)
      ensures SnapTarget(celsius).Success? ==>
                && Accounted(old(S()), S(), me, TargetRequest(SnapTarget(celsius).value), end, dryRun)
                && Timely(old(S()), S(), me, TargetRequest(SnapTarget(celsius).value), end, dryRun, back, settle, alone)
      ensures SnapTarget(celsius).Failure? ==> Own(writes, me) == []
      ensures Follows(DecideTarget(celsius, r, dryRun), end) && (end.Done? ==> end.result.before == r)
      ensures PayloadOf(end).Some? ==>
                SnapTarget(celsius).Success? && PayloadOf(end).value == [0x03, TargetRaw(celsius).value]
      ensures end.Done? ==>
                Sendable(end.result.payload, TargetRequest(SnapTarget(celsius).value), end.result.before)
    {
      var early, rounded, payload := CheckTarget(celsius, r, dryRun);
      if early.Some? {
        return early.value;
      }
      ghost var base;
      end, base := SendVerified(me, payload, TargetRequest(rounded), dryRun);
    }

    /** `set_temperature`: the bounds come from the packet that becomes the baseline. */
    method ChangeTarget(me: nat, celsius: real, dryRun: bool)
      returns (end: End, ghost base: Baseline)
      requires Inv(me) && Own(writes, me) == [] && back.None?
      modifies this`latest, this`updated, this`observed, this`now, this`log, this`writes, this`mark, this`back
      ensures Inv(me) && Later(old(S()), S())
      ensures end.AssertionFailed? ==> EmptiedByAnother(old(S()), S(), me)
      ensures alone ==> !end.AssertionFailed? && OnlyOwn(old(S()), S(), me)
      ensures SnapTarget(celsius).Success? ==>
                Accounted(old(S()), S(), me, TargetRequest(SnapTarget(celsius).value), end, dryRun)
      ensures SnapTarget(celsius).Success? ==>
                Timely(old(S()), S(), me, TargetRequest(SnapTarget(celsius).value), end, dryRun, back, settle, alone)
      ensures SnapTarget(celsius).Failure? ==> Own(writes, me) == []
      ensures EndsOn(base, if base.Got? then DecideTarget(celsius, base.reading, dryRun) else None, end)
      ensures BaselineOk(old(S()), S(), base, settle)
      ensures PayloadOf(end).Some? ==>
                SnapTarget(celsius).Success? && PayloadOf(end).value == [0x03, TargetRaw(celsius).value]
      ensures end.Done? ==>
                Sendable(end.result.payload, TargetRequest(SnapTarget(celsius).value), end.result.before)
    {
      var b := WaitForState(me);
      base := b;
      if b.Silent? {
        return Refused(NoStatusPacket), base;
      }
      if b.Cleared? {
        return AssertionFailed(None), base;
      }
      ghost var s1 := S();
      end := SendTarget(me, celsius, b.reading, dryRun);
      LaterIsTransitive(old(S()), s1, S());
      LaterKeepsBaseline(old(S()), s1, S(), base, settle);
    }

    /** What `set_fan_percent` asks before it sends anything: a running unit and a percentage on
        the device's scale. */
    method CheckFan(percent: int, r: Reading, dryRun: bool)
      returns (early: Option<End>, snapped: int, payload: seq<byte>)
      ensures early.Some? ==>
                DecideFan(percent, r, dryRun) == early && (early.value.Refused? || early.value.Rejected?)
      ensures early.None? ==>
                && SnapFanPercent(percent) == Success(snapped) && payload == [0x07, FanPercentToStep(percent)]
                && Sendable(payload, FanRequest(snapped), r)
                && DecideFan(percent, r, dryRun) == Decide(payload, FanRequest(snapped), r, dryRun)
    {
      snapped, payload := 0, [];
      if r.state.power != ON {
        return Some(Refused(NotRunning)), snapped, payload;
      }
      var grid := SnapFanPercent(percent);
      if grid.Failure? {
        return Some(Rejected(grid.error)), snapped, payload;
      }
      FanSnapIsNearest(percent, 0);
      FanPayloadIsSendable(percent, r);
      early, snapped, payload := None, grid.value, SetFanPercent(grid.value).value;
    }

    /** `set_fan_percent` */
    method ChangeFan(me: nat, percent: int, dryRun: bool)
      returns (end: End, ghost base: Baseline)
      requires Inv(me) && Own(writes, me) == [] && back.None?
      modifies this`latest, this`updated, this`observed, this`now, this`log, this`writes, this`mark, this`back
      ensures Inv(me) && Later(old(S()), S())
      ensures end.AssertionFailed? ==> EmptiedByAnother(old(S()), S(), me)
      ensures alone ==> !end.AssertionFailed? && OnlyOwn(old(S()), S(), me)
      ensures FanPercentInRange(percent) ==>
                Accounted(old(S()), S(), me, FanRequest(SnapFanPercent(percent).value), end, dryRun)
      ensures FanPercentInRange(percent) ==>
                Timely(old(S()), S(), me, FanRequest(SnapFanPercent(percent).value), end, dryRun, back, settle, alone)
      ensures !FanPercentInRange(percent) ==> Own(writes, me) == []
      ensures EndsOn(base, if base.Got? then DecideFan(percent, base.reading, dryRun) else None, end)
      ensures BaselineOk(old(S()), S(), base, settle)
      ensures PayloadOf(end).Some? ==>
                FanPercentInRange(percent) && PayloadOf(end).value == [0x07, FanPercentToStep(percent)]
      ensures end.Done? ==>
                Sendable(end.result.payload, FanRequest(SnapFanPercent(percent).value), end.result.before)
    {
      var b := WaitForState(me);
      base := b;
      if b.Silent? {
        return Refused(NoStatusPacket), base;
      }
      if b.Cleared? {
        return AssertionFailed(None), base;
      }
      var early, snapped, payload := CheckFan(percent, b.reading, dryRun);
      if early.Some? {
        if FanPercentInRange(percent) {
          EarlyIsAccounted(old(S()), S(), me, FanRequest(SnapFanPercent(percent).value), early.value, dryRun, settle, alone);
        }
        return early.value, base;
      }
      ghost var s1 := S();
      ghost var again;
      end, again := SendVerified(me, payload, FanRequest(snapped), dryRun);
      LaterIsTransitive(old(S()), s1, S());
      LaterKeepsBaseline(old(S()), s1, S(), base, settle);
    }
  }
}
