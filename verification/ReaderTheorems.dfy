/** What every run of the reader keeps. */
module ReaderTheorems {
  import opened Wrappers
  import opened Constants
  import opened Packets
  import opened DeviceState
  import opened ReaderSteps

  // ---- conservation ------------------------------------------------------------------------

  /** Notifications that arrived whole. */
  function Wholes(es: seq<Event>): nat {
    if es == [] then 0
    else Wholes(es[..|es| - 1]) + if Last(es).Notified? && IsWholeRead(Last(es).data) then 1 else 0
  }

  function Notifications(es: seq<Event>): nat {
    if es == [] then 0 else Notifications(es[..|es| - 1]) + if Last(es).Notified? then 1 else 0
  }

  /** Notifications that did not begin a packet. */
  function Tails(es: seq<Event>): nat {
    if es == [] then 0
    else Tails(es[..|es| - 1]) + if Last(es).Notified? && !LooksLikePacketStart(Last(es).data) then 1 else 0
  }

  /** Follow-up reads that really failed or were cancelled along a run. */
  function LostReads(v: Notify, es: seq<Event>): nat {
    if es == [] then 0
    else LostReads(v, es[..|es| - 1])
         + if (Last(es).ReadFailed? || Last(es).ReadCancelled?) && Enabled(Run(v, es[..|es| - 1]), Last(es))
           then 1 else 0
  }

  ghost predicate TasksNumbered(v: Notify) {
    && (forall t :: t in v.inFlight ==> t < v.nextTask)
    && (v.completion.Some? ==> v.completion.value < v.nextTask)
    && (v.stopPc.AwaitingCancelled? ==> v.stopPc.task < v.nextTask)
  }

  /** Every notification has exactly one fate, and so has every packet that was begun. */
  ghost predicate Conserved(v: Notify, notifications: nat, tails: nat, wholes: nat, lost: nat) {
    && TasksNumbered(v)
    && v.packetsSeen == notifications
    && v.rejectedNotAPacket == tails
    && v.packetsSeen == v.rejectedNotAPacket + v.droppedWhileBusy + v.partialsSeen + wholes
    && wholes + v.partialsSeen == |v.delivered| + v.rejectedChecksum + lost + |v.inFlight|
  }

  lemma EndTaskCounts(v: Notify, task: nat)
    requires task in v.inFlight
    ensures |EndTask(v, task).inFlight| == |v.inFlight| - 1
  {
    assert EndTask(v, task).inFlight.Keys == v.inFlight.Keys - {task};
  }

  lemma NewTaskCounts(m: map<nat, seq<byte>>, task: nat, data: seq<byte>)
    requires task !in m
    ensures |m[task := data]| == |m| + 1
  {
    assert m[task := data].Keys == m.Keys + {task};
  }

  lemma ReceivedConserves(v: Notify, data: seq<byte>, starts: bool, packet: StatusPacket, connected: bool,
                          n: nat, t: nat, w: nat, lost: nat)
    requires Conserved(v, n, t, w, lost)
    ensures Conserved(Received(v, data, starts, packet, connected), n + 1, t + if starts then 0 else 1,
                      w + if starts && packet.IsComplete() then 1 else 0, lost)
  {
    NewTaskCounts(v.inFlight, v.nextTask, data);
  }

  lemma PublishConserves(v: Notify, task: nat, packet: StatusPacket, connected: bool,
                         n: nat, t: nat, w: nat, lost: nat)
    requires Conserved(v, n, t, w, lost) && task in v.inFlight
    ensures Conserved(Publish(EndTask(v, task), packet, connected), n, t, w, lost)
  {
    EndTaskCounts(v, task);
  }

  lemma StepConserves(v: Notify, e: Event, n: nat, t: nat, w: nat, lost: nat)
    requires Conserved(v, n, t, w, lost) && Enabled(v, e)
    ensures Conserved(Step(v, e),
                      n + if e.Notified? then 1 else 0,
                      t + if e.Notified? && !LooksLikePacketStart(e.data) then 1 else 0,
                      w + if e.Notified? && IsWholeRead(e.data) then 1 else 0,
                      lost + if e.ReadFailed? || e.ReadCancelled? then 1 else 0)
  {
    match e
    case Notified(data, connected) =>
      ReceivedConserves(v, data, LooksLikePacketStart(data), Decode(data), connected, n, t, w, lost);
    case ReadReturned(task, remainder, connected) =>
      PublishConserves(v, task, Decode(Reassemble(v.inFlight[task], remainder)), connected, n, t, w, lost);
    case ReadFailed(task) => EndTaskCounts(v, task);
    case ReadCancelled(task) => EndTaskCounts(v, task);
    case _ =>
  }

  /** Over every run, stops and restarts included: a notification was not a packet, was dropped
      behind a read, was partial or was whole; and what was partial or whole was published,
      rejected by its checksum, lost with its read, or is still in flight. */
  lemma {:induction false} NotificationsAreConserved(es: seq<Event>)
    ensures Conserved(Run(Fresh(), es), Notifications(es), Tails(es), Wholes(es), LostReads(Fresh(), es))
  {
    if es != [] {
      var front := es[..|es| - 1];
      NotificationsAreConserved(front);
      var v := Run(Fresh(), front);
      if Enabled(v, Last(es)) {
        StepConserves(v, Last(es), Notifications(front), Tails(front), Wholes(front), LostReads(Fresh(), front));
      }
    }
  }

  // ---- one read at a time ------------------------------------------------------------------

  /** Some `stop` on the way resumed from its cancelled read and forgot a newer one: a fragment
      that arrived in between had already started it. */
  function ForgetsARead(v: Notify, es: seq<Event>): bool {
    es != [] &&
    var front := es[..|es| - 1];
    ForgetsARead(v, front) || (Last(es).StopResumed? && Enabled(Run(v, front), StopResumed) && Busy(Run(v, front)))
  }

  ghost predicate OneTracked(v: Notify) {
    && TasksNumbered(v)
    && forall t :: t in v.inFlight ==> v.completion == Some(t)
  }

  lemma ReceivedTracks(v: Notify, data: seq<byte>, starts: bool, packet: StatusPacket, connected: bool)
    requires OneTracked(v)
    ensures OneTracked(Received(v, data, starts, packet, connected))
  {
  }

  lemma StepTracks(v: Notify, e: Event)
    requires OneTracked(v) && Enabled(v, e) && !(e.StopResumed? && Busy(v))
    ensures OneTracked(Step(v, e))
  {
    match e
    case Notified(data, connected) =>
      ReceivedTracks(v, data, LooksLikePacketStart(data), Decode(data), connected);
    case _ =>
  }

  /** From any state in which the reader knows of every read in flight, there is at most one
      until some `stop` forgets one. */
  lemma {:induction false} OneReadInFlight(v: Notify, es: seq<Event>)
    requires OneTracked(v) && !ForgetsARead(v, es)
    ensures OneTracked(Run(v, es))
    ensures |Run(v, es).inFlight| <= 1
  {
    if es != [] {
      var mid := Run(v, es[..|es| - 1]);
      OneReadInFlight(v, es[..|es| - 1]);
      if Enabled(mid, Last(es)) {
        StepTracks(mid, Last(es));
      }
    }
    AtMostOne(Run(v, es));
  }

  lemma AtMostOne(v: Notify)
    requires OneTracked(v)
    ensures |v.inFlight| <= 1
  {
    if v.inFlight != map[] {
      var t :| t in v.inFlight;
      assert v.inFlight.Keys == {t};
    }
  }

  predicate Unstopped(es: seq<Event>) {
    forall e :: e in es ==> !e.StopCalled?
  }

  lemma {:induction false} NoStopForgetsNothing(v: Notify, es: seq<Event>)
    requires v.stopPc.NoStop? && Unstopped(es)
    ensures !ForgetsARead(v, es) && Run(v, es).stopPc.NoStop?
  {
    if es != [] {
      var front := es[..|es| - 1];
      assert Last(es) in es && forall e :: e in front ==> e in es;
      NoStopForgetsNothing(v, front);
    }
  }

  lemma {:induction false} RunNumbersTasks(v: Notify, es: seq<Event>)
    requires TasksNumbered(v)
    ensures TasksNumbered(Run(v, es))
    ensures v.nextTask <= Run(v, es).nextTask
  {
    if es != [] {
      RunNumbersTasks(v, es[..|es| - 1]);
      var mid := Run(v, es[..|es| - 1]);
      if Enabled(mid, Last(es)) {
        StepNumbersTasks(mid, Last(es));
      }
    }
  }

  lemma StepNumbersTasks(v: Notify, e: Event)
    requires TasksNumbered(v) && Enabled(v, e)
    ensures TasksNumbered(Step(v, e)) && v.nextTask <= Step(v, e).nextTask
  {
    match e
    case Notified(data, connected) =>
      ReceivedNumbersTasks(v, data, LooksLikePacketStart(data), Decode(data), connected);
    case _ =>
  }

  lemma ReceivedNumbersTasks(v: Notify, data: seq<byte>, starts: bool, packet: StatusPacket, connected: bool)
    requires TasksNumbered(v)
    ensures var v' := Received(v, data, starts, packet, connected); TasksNumbered(v') && v.nextTask <= v'.nextTask
  {
  }

  /** Between a start that finds nothing in flight and the next stop there is at most one read,
      whatever came before that start. */
  lemma OneReadFromStartToStop(before: seq<Event>, es: seq<Event>)
    requires var v := Run(Fresh(), before); v.stopPc.NoStop? && v.inFlight == map[]
    requires Unstopped(es)
    ensures OneTracked(Run(Run(Fresh(), before), es)) && |Run(Run(Fresh(), before), es).inFlight| <= 1
  {
    var v := Run(Fresh(), before);
    RunNumbersTasks(Fresh(), before);
    NoStopForgetsNothing(v, es);
    OneReadInFlight(v, es);
  }

  /** And exactly so: a stretch without stops keeps to one read if and only if the reader knew
      of every read in flight when it began. */
  lemma OneReadUntilStopIff(v: Notify)
    requires TasksNumbered(v) && v.stopPc.NoStop?
    ensures (forall es :: Unstopped(es) ==> |Run(v, es).inFlight| <= 1) <==> OneTracked(v)
  {
    if OneTracked(v) {
      forall es | Unstopped(es) ensures |Run(v, es).inFlight| <= 1 {
        NoStopForgetsNothing(v, es);
        OneReadInFlight(v, es);
      }
    } else {
      var t :| t in v.inFlight && v.completion != Some(t);
      if Busy(v) {
        TwoKeys(v.inFlight, t, v.completion.value);
        assert Run(v, []) == v && Unstopped([]);
      } else {
        var head: seq<byte> := [1, PACKET_FORMAT_V3_HOME];
        assert LooksLikePacketStart(head) && !Decode(head).IsComplete();
        var es := [Notified(head, true)];
        assert es[..|es| - 1] == [] && Last(es) == Notified(head, true);
        var v' := Run(v, es);
        assert v' == Next(Run(v, []), Notified(head, true));
        assert v'.inFlight == v.inFlight[v.nextTask := head];
        TwoKeys(v'.inFlight, t, v.nextTask);
        assert Unstopped(es);
      }
    }
  }

  lemma TwoKeys(m: map<nat, seq<byte>>, x: nat, y: nat)
    requires x in m && y in m && x != y
    ensures |m| >= 2
  {
    assert m.Keys == {x, y} + (m.Keys - {x, y});
  }

  lemma Then(es: seq<Event>, e: Event) returns (more: seq<Event>)
    ensures Run(Fresh(), more) == Next(Run(Fresh(), es), e)
  {
    more := es + [e];
    assert more[..|more| - 1] == es;
  }

  /** A start need not find nothing in flight: a fragment that arrives between the end of the
      cancelled read and the resumption of `stop` starts a read that `stop` forgets, and after a
      restart the next fragment starts a second one beside it, with no stop in sight. */
  lemma StopCanForgetARead()
    ensures exists es :: var v := Run(Fresh(), es); |v.inFlight| == 2 && v.running && v.stopPc.NoStop?
  {
    var head: seq<byte> := [1, PACKET_FORMAT_V3_HOME];
    assert LooksLikePacketStart(head) && !Decode(head).IsComplete();
    var es := Then([], Subscribed);
    es := Then(es, Notified(head, true));
    es := Then(es, StopCalled);
    es := Then(es, ReadCancelled(0));
    es := Then(es, Notified(head, true));
    es := Then(es, StopResumed);
    es := Then(es, UnsubscribeReturned);
    es := Then(es, Subscribed);
    es := Then(es, Notified(head, true));
    assert Run(Fresh(), es).inFlight == map[1 := head, 2 := head];
    assert |map[1 := head, 2 := head]| == 2;
  }

  /** And a forgotten read always leaves room for a second one. */
  lemma ForgottenReadAllowsASecond(v: Notify, head: seq<byte>, connected: bool)
    requires TasksNumbered(v) && Enabled(v, StopResumed) && Busy(v)
    requires LooksLikePacketStart(head) && !Decode(head).IsComplete()
    ensures |Next(Next(v, StopResumed), Notified(head, connected)).inFlight| >= 2
  {
    NewTaskCounts(v.inFlight, v.nextTask, head);
    assert v.completion.value in v.inFlight.Keys;
    assert |v.inFlight.Keys| >= 1;
  }

  // ---- stopping ----------------------------------------------------------------------------

  /** Whether the last start or stop of a run was a start. */
  function Started(v: Notify, es: seq<Event>): bool {
    if es == [] then v.running
    else
      var mid, last := Run(v, es[..|es| - 1]), Last(es);
      if last.Subscribed? && Enabled(mid, last) then true
      else if last.StopCalled? && Enabled(mid, last) then false
      else Started(v, es[..|es| - 1])
  }

  /** Stops of a running reader. */
  function StopsBegun(v: Notify, es: seq<Event>): nat {
    if es == [] then 0
    else
      var mid, last := Run(v, es[..|es| - 1]), Last(es);
      StopsBegun(v, es[..|es| - 1]) + if last.StopCalled? && Enabled(mid, last) && mid.running then 1 else 0
  }

  function Unsubscriptions(v: Notify, es: seq<Event>): nat {
    if es == [] then 0
    else
      var mid, last := Run(v, es[..|es| - 1]), Last(es);
      Unsubscriptions(v, es[..|es| - 1]) + if last.UnsubscribeReturned? && mid.stopPc.Unsubscribing? then 1 else 0
  }

  lemma ReceivedKeepsPhase(v: Notify, data: seq<byte>, starts: bool, packet: StatusPacket, connected: bool)
    ensures var v' := Received(v, data, starts, packet, connected); v'.running == v.running && v'.stopPc == v.stopPc
  {
  }

  lemma StepPhase(v: Notify, e: Event)
    ensures var v' := Next(v, e);
            && v'.running == (if e.Subscribed? && Enabled(v, e) then true
                              else if e.StopCalled? && Enabled(v, e) then false else v.running)
            && (v'.stopPc.NoStop? <==>
                  (v.stopPc.NoStop? && !(e.StopCalled? && v.running)) || (e.UnsubscribeReturned? && Enabled(v, e)))
  {
    if e.Notified? {
      ReceivedKeepsPhase(v, e.data, LooksLikePacketStart(e.data), Decode(e.data), e.connected);
    }
  }

  /** Over every run: the reader runs exactly from a start to the next stop, and every stop of a
      running reader has unsubscribed once, or is the one still under way. */
  lemma {:induction false} EveryStopUnsubscribes(es: seq<Event>)
    ensures var v := Run(Fresh(), es);
            && v.running == Started(Fresh(), es)
            && StopsBegun(Fresh(), es) == Unsubscriptions(Fresh(), es) + if v.stopPc.NoStop? then 0 else 1
  {
    if es != [] {
      EveryStopUnsubscribes(es[..|es| - 1]);
      StepPhase(Run(Fresh(), es[..|es| - 1]), Last(es));
    }
  }

  // ---- integrity and transparency ----------------------------------------------------------

  ghost predicate OnlyBelievable(rs: seq<Reading>) {
    forall k :: 0 <= k < |rs| ==> rs[k].Faithful() && Believable(rs[k].packet.raw)
  }

  /** What the decoder promises of a packet it made. */
  ghost predicate Decoded(packet: StatusPacket) {
    packet == Decode(packet.raw) && (packet.IsTrustworthy() ==> Believable(packet.raw))
  }

  lemma DecodeIsDecoded(data: seq<byte>)
    ensures Decoded(Decode(data))
  {
    TrustworthyIff(data);
  }

  lemma PublishIsBelievable(v: Notify, packet: StatusPacket, connected: bool)
    requires OnlyBelievable(v.delivered) && Decoded(packet)
    ensures OnlyBelievable(Publish(v, packet, connected).delivered)
  {
  }

  lemma StepIsBelievable(v: Notify, e: Event)
    requires OnlyBelievable(v.delivered) && Enabled(v, e)
    ensures OnlyBelievable(Step(v, e).delivered)
  {
    match e
    case Notified(data, connected) =>
      DecodeIsDecoded(data);
      PublishIsBelievable(v.(packetsSeen := v.packetsSeen + 1), Decode(data), connected);
    case ReadReturned(task, remainder, connected) =>
      var joined := Reassemble(v.inFlight[task], remainder);
      DecodeIsDecoded(joined);
      PublishIsBelievable(EndTask(v, task), Decode(joined), connected);
    case _ =>
  }

  /** Nothing that fails its checksum ever reaches the callback, joined or not. */
  lemma {:induction false} DeliveredIsBelievable(v: Notify, es: seq<Event>)
    requires OnlyBelievable(v.delivered)
    ensures OnlyBelievable(Run(v, es).delivered)
  {
    if es != [] {
      var mid := Run(v, es[..|es| - 1]);
      DeliveredIsBelievable(v, es[..|es| - 1]);
      if Enabled(mid, Last(es)) {
        StepIsBelievable(mid, Last(es));
      }
    }
  }

  /** A notification of the first `k` bytes, answered by a read of the rest. */
  function SplitRun(v: Notify, w: seq<byte>, k: nat, connected: bool): Notify
    requires k <= |w|
  {
    Next(Next(v, Notified(w[..k], connected)), ReadReturned(v.nextTask, w[k..], connected))
  }

  function Whole(w: seq<byte>, connected: bool): Reading {
    Reading(FromStatus(Decode(w), connected), Decode(w))
  }

  /** A believable packet that arrives whole is published at once, whatever is in flight. */
  lemma WholeIsPublished(v: Notify, w: seq<byte>, connected: bool)
    requires Believable(w) && LooksLikePacketStart(w)
    ensures Next(v, Notified(w, connected)) ==
              v.(packetsSeen := v.packetsSeen + 1, delivered := v.delivered + [Whole(w, connected)])
  {
    TrustworthyIff(w);
  }

  lemma HeadIsPartial(w: seq<byte>, k: nat)
    requires Believable(w) && LooksLikePacketStart(w) && k <= |w|
    ensures LooksLikePacketStart(w[..k]) <==> k >= 2
    ensures k >= 2 ==> (Decode(w[..k]).IsComplete() <==> k >= w[PAYLOAD_LENGTH] + HEADER_LENGTH)
    ensures Decode(w[..k]).raw == w[..k]
  {
  }

  lemma FragmentThenRest(v: Notify, head: seq<byte>, headPacket: StatusPacket, whole: StatusPacket, connected: bool)
    requires TasksNumbered(v) && !Busy(v) && !headPacket.IsComplete() && whole.IsTrustworthy()
    ensures var v1 := Received(v, head, true, headPacket, connected);
            && v.nextTask in v1.inFlight && v1.inFlight[v.nextTask] == head
            && var v2 := Publish(EndTask(v1, v.nextTask), whole, connected);
               && v2.delivered == v.delivered + [Reading(FromStatus(whole, connected), whole)]
               && v2.inFlight == v.inFlight && v2.partialsSeen == v.partialsSeen + 1
               && v2.rejectedChecksum == v.rejectedChecksum
  {
  }

  lemma LateSplit(v: Notify, w: seq<byte>, k: nat, connected: bool)
    requires TasksNumbered(v) && k <= |w|
    requires !LooksLikePacketStart(w[..k]) || Decode(w[..k]).IsComplete()
    ensures var v' := SplitRun(v, w, k, connected);
            v'.delivered == v.delivered
              + if LooksLikePacketStart(w[..k]) && Decode(w[..k]).IsTrustworthy() then [Whole(w[..k], connected)] else []
  {
    var v1 := Next(v, Notified(w[..k], connected));
    assert v1.inFlight == v.inFlight && v.nextTask !in v.inFlight;
  }

  lemma {:induction false} FragmentIsKept(v: Notify, es: seq<Event>, task: nat)
    requires TasksNumbered(v) && task in v.inFlight && task in Run(v, es).inFlight
    ensures Run(v, es).inFlight[task] == v.inFlight[task]
  {
    if es != [] {
      var mid := Run(v, es[..|es| - 1]);
      RunNumbersTasks(v, es[..|es| - 1]);
      if Enabled(mid, Last(es)) {
        StepKeepsFragment(mid, Last(es), task);
      }
      FragmentIsKept(v, es[..|es| - 1], task);
    }
  }

  lemma StepKeepsFragment(v: Notify, e: Event, task: nat)
    requires TasksNumbered(v) && Enabled(v, e) && task < v.nextTask && task in Step(v, e).inFlight
    ensures task in v.inFlight && Step(v, e).inFlight[task] == v.inFlight[task]
  {
    match e
    case Notified(data, connected) =>
      ReceivedKeepsFragment(v, data, LooksLikePacketStart(data), Decode(data), connected, task);
    case _ =>
  }

  lemma ReceivedKeepsFragment(v: Notify, data: seq<byte>, starts: bool, packet: StatusPacket, connected: bool,
                              task: nat)
    requires TasksNumbered(v) && task < v.nextTask
    requires task in Received(v, data, starts, packet, connected).inFlight
    ensures task in v.inFlight
    ensures Received(v, data, starts, packet, connected).inFlight[task] == v.inFlight[task]
  {
  }

  /** Whatever happens while the follow-up read of a fragment is in flight, other packets, other
      fragments, a stop, the read that answers it completes its own packet and no other: what
      it appends is the whole packet. */
  lemma SplitSurvivesInterleaving(v: Notify, w: seq<byte>, k: nat, between: seq<Event>, c0: bool, connected: bool)
    requires TasksNumbered(v) && !Busy(v)
    requires Believable(w) && LooksLikePacketStart(w)
    requires 2 <= k <= |w| && k < w[PAYLOAD_LENGTH] + HEADER_LENGTH
    ensures var v1 := Next(v, Notified(w[..k], c0));
            var v2 := Run(v1, between);
            v.nextTask in v1.inFlight &&
            (v.nextTask in v2.inFlight ==>
              var v3 := Next(v2, ReadReturned(v.nextTask, w[k..], connected));
              && v3.delivered == v2.delivered + [Whole(w, connected)]
              && v3.rejectedChecksum == v2.rejectedChecksum
              && v3.inFlight == v2.inFlight - {v.nextTask} && v3.partialsSeen == v2.partialsSeen)
  {
    HeadIsPartial(w, k);
    TrustworthyIff(w);
    var v1 := Next(v, Notified(w[..k], c0));
    var v2 := Run(v1, between);
    FragmentThenRest(v, w[..k], Decode(w[..k]), Decode(w), connected);
    assert v1.inFlight == v.inFlight[v.nextTask := w[..k]];
    if v.nextTask in v2.inFlight {
      StepNumbersTasks(v, Notified(w[..k], c0));
      FragmentIsKept(v1, between, v.nextTask);
      assert Reassemble(w[..k], w[k..]) == w;
      var v3 := Next(v2, ReadReturned(v.nextTask, w[k..], connected));
      assert v3 == Publish(EndTask(v2, v.nextTask), Decode(w), connected);
    }
  }

  lemma HeadBeginsARead(v: Notify, head: seq<byte>, connected: bool)
    requires !Busy(v) && LooksLikePacketStart(head) && !Decode(head).IsComplete()
    ensures var v1 := Next(v, Notified(head, connected));
            && v1.delivered == v.delivered && v1.rejectedChecksum == v.rejectedChecksum
            && v1.inFlight == v.inFlight[v.nextTask := head] && v1.partialsSeen == v.partialsSeen + 1
  {
  }

  /** A believable packet split anywhere from its third byte to the end its header declares is
      published exactly as if it had arrived whole. Split earlier, its head is taken for a stray
      tail; split later, the head is already whole and is published without its extra bytes. */
  lemma SplitIsTransparentIff(v: Notify, w: seq<byte>, k: nat, connected: bool)
    requires TasksNumbered(v) && !Busy(v)
    requires Believable(w) && LooksLikePacketStart(w) && k <= |w|
    ensures SplitRun(v, w, k, connected).delivered == v.delivered + [Whole(w, connected)] <==>
              2 <= k < w[PAYLOAD_LENGTH] + HEADER_LENGTH || k == |w|
    ensures 2 <= k < w[PAYLOAD_LENGTH] + HEADER_LENGTH ==>
              var v' := SplitRun(v, w, k, connected);
              v'.inFlight == v.inFlight && v'.partialsSeen == v.partialsSeen + 1
              && v'.rejectedChecksum == v.rejectedChecksum
  {
    HeadIsPartial(w, k);
    HeadIsPartial(w, |w|);
    TrustworthyIff(w);
    assert w[..|w|] == w;
    if 2 <= k < w[PAYLOAD_LENGTH] + HEADER_LENGTH {
      HeadBeginsARead(v, w[..k], connected);
      SplitSurvivesInterleaving(v, w, k, [], connected, connected);
    } else {
      LateSplit(v, w, k, connected);
      var got := SplitRun(v, w, k, connected).delivered;
      if k < |w| && |got| == |v.delivered| + 1 {
        assert Last(got).packet.raw == w[..k] && Last(v.delivered + [Whole(w, connected)]).packet.raw == w;
      }
    }
  }

  // ---- polling -----------------------------------------------------------------------------

  datatype Shape = RaisedShape | WholeShape | PartialShape | AlienShape

  function ShapeOf(r: PollRead): Shape {
    match r
    case ReadRaised => RaisedShape
    case ReadGave(data, _, _) =>
      if IsWholeRead(data) then WholeShape else if LooksLikePacketStart(data) then PartialShape else AlienShape
  }

  function CountShape(rs: seq<PollRead>, shape: Shape): nat {
    if rs == [] then 0 else CountShape(rs[..|rs| - 1], shape) + if ShapeOf(Last(rs)) == shape then 1 else 0
  }

  /** A clock that does not run backwards. */
  predicate NonNegative(rs: seq<PollRead>) {
    forall r :: r in rs ==> r.ReadGave? ==> r.rtt >= 0.0
  }

  ghost predicate RttBracketed(p: Poll) {
    && (p.polls == 0 <==> p.rttMin.None?)
    && (p.rttMin.None? ==> p.rttSum == 0.0 && p.rttMax == 0.0)
    && (p.rttMin.Some? ==>
          && 0.0 <= p.rttMin.value <= p.rttMax
          && p.rttMin.value * p.polls as real <= p.rttSum <= p.rttMax * p.polls as real)
  }

  ghost predicate Accounted(p: Poll) {
    && p.polls == p.whole + p.partial + p.alien == p.packetsSeen
    && p.whole == |p.delivered| + p.rejectedChecksum
    && OnlyBelievable(p.delivered)
  }

  /** One more sample, between the new bounds, keeps a sum of `m` samples between them. */
  lemma BracketGrows(lo: real, lo': real, hi: real, hi': real, sum: real, x: real, m: real)
    requires lo' <= lo && hi <= hi' && lo' <= x <= hi' && 0.0 <= m
    requires lo * m <= sum <= hi * m
    ensures lo' * (m + 1.0) <= sum + x <= hi' * (m + 1.0)
  {
    assert lo' * m <= lo * m && hi * m <= hi' * m;
    assert lo' * (m + 1.0) == lo' * m + lo' && hi' * (m + 1.0) == hi' * m + hi';
  }

  lemma RecordKeepsBracket(p: Poll, rtt: real)
    requires RttBracketed(p) && rtt >= 0.0
    ensures RttBracketed(RecordRtt(p, rtt).(polls := p.polls + 1, packetsSeen := p.packetsSeen + 1))
  {
    var p' := RecordRtt(p, rtt);
    if p.rttMin.Some? {
      assert (p.polls + 1) as real == p.polls as real + 1.0;
      BracketGrows(p.rttMin.value, p'.rttMin.value, p.rttMax, p'.rttMax, p.rttSum, rtt, p.polls as real);
    }
  }

  lemma SortedKeepsBracket(p: Poll, starts: bool, packet: StatusPacket, connected: bool)
    requires RttBracketed(p)
    ensures RttBracketed(Sorted(p, starts, packet, connected))
  {
  }

  lemma PollOnceKeepsBracket(p: Poll, r: PollRead)
    requires RttBracketed(p) && (r.ReadGave? ==> r.rtt >= 0.0)
    ensures RttBracketed(PollOnce(p, r))
  {
    if r.ReadGave? {
      RecordKeepsBracket(p, r.rtt);
      SortedKeepsBracket(RecordRtt(p, r.rtt).(polls := p.polls + 1, packetsSeen := p.packetsSeen + 1),
                         LooksLikePacketStart(r.data), Decode(r.data), r.connected);
    }
  }

  lemma SortedAccounts(p: Poll, starts: bool, packet: StatusPacket, connected: bool)
    requires Accounted(p) && Decoded(packet)
    ensures Accounted(Sorted(p.(polls := p.polls + 1, packetsSeen := p.packetsSeen + 1), starts, packet, connected))
  {
  }

  lemma PollOnceAccounts(p: Poll, r: PollRead)
    requires Accounted(p)
    ensures Accounted(PollOnce(p, r))
  {
    if r.ReadGave? {
      DecodeIsDecoded(r.data);
      SortedAccounts(RecordRtt(p, r.rtt), LooksLikePacketStart(r.data), Decode(r.data), r.connected);
    }
  }

  ghost predicate Counted(p: Poll, raised: nat, whole: nat, partial: nat, alien: nat) {
    p.failures == raised && p.whole == whole && p.partial == partial && p.alien == alien
  }

  lemma PollOnceCounts(p: Poll, r: PollRead, n: Shape -> nat)
    requires Counted(p, n(RaisedShape), n(WholeShape), n(PartialShape), n(AlienShape))
    ensures var more := (s: Shape) => n(s) + if ShapeOf(r) == s then 1 else 0;
            Counted(PollOnce(p, r), more(RaisedShape), more(WholeShape), more(PartialShape), more(AlienShape))
  {
  }

  /** Between any two turns of the poll loop every read that gave data was whole, partial or
      alien, every whole one reached the callback or failed its checksum, and the counters say
      how many reads of each shape there were. */
  lemma {:induction false} PollAccounting(rs: seq<PollRead>)
    requires NonNegative(rs)
    ensures Accounted(PollRun(FreshPoll(), rs)) && RttBracketed(PollRun(FreshPoll(), rs))
    ensures Counted(PollRun(FreshPoll(), rs), CountShape(rs, RaisedShape), CountShape(rs, WholeShape),
                    CountShape(rs, PartialShape), CountShape(rs, AlienShape))
  {
    if rs != [] {
      var front := rs[..|rs| - 1];
      assert Last(rs) in rs;
      PollAccounting(front);
      PollOnceAccounts(PollRun(FreshPoll(), front), Last(rs));
      PollOnceKeepsBracket(PollRun(FreshPoll(), front), Last(rs));
      PollOnceCounts(PollRun(FreshPoll(), front), Last(rs), s => CountShape(front, s));
    }
  }

  /** The readings that polls should give: of every believable packet read, in order. */
  function BelievedPolls(rs: seq<PollRead>): seq<Reading> {
    if rs == [] then []
    else
      BelievedPolls(rs[..|rs| - 1])
      + match Last(rs)
        case ReadRaised => []
        case ReadGave(data, _, connected) =>
          if LooksLikePacketStart(data) && Believable(data) then [Whole(data, connected)] else []
  }

  lemma SortedDelivers(p: Poll, starts: bool, packet: StatusPacket, connected: bool)
    ensures Sorted(p, starts, packet, connected).delivered ==
              p.delivered + if starts && packet.IsTrustworthy() then [Reading(FromStatus(packet, connected), packet)] else []
  {
  }

  /** Polling publishes every believable packet it reads and nothing else. */
  lemma {:induction false} PollsDeliverExactly(rs: seq<PollRead>)
    ensures PollRun(FreshPoll(), rs).delivered == BelievedPolls(rs)
  {
    if rs != [] {
      PollsDeliverExactly(rs[..|rs| - 1]);
      var r := Last(rs);
      if r.ReadGave? {
        TrustworthyIff(r.data);
        SortedDelivers(RecordRtt(PollRun(FreshPoll(), rs[..|rs| - 1]), r.rtt), LooksLikePacketStart(r.data),
                       Decode(r.data), r.connected);
      }
    }
  }

  /** The round trips of the reads that gave data. */
  function Rtts(rs: seq<PollRead>): seq<real> {
    if rs == [] then [] else Rtts(rs[..|rs| - 1]) + if Last(rs).ReadGave? then [Last(rs).rtt] else []
  }

  function SumOf(xs: seq<real>): real {
    if xs == [] then 0.0 else SumOf(xs[..|xs| - 1]) + Last(xs)
  }

  ghost predicate RttExact(p: Poll, xs: seq<real>) {
    && p.polls == |xs| && p.rttSum == SumOf(xs)
    && (xs == [] ==> p.rttMin.None? && p.rttMax == 0.0)
    && (xs != [] ==> p.rttMin.Some? && p.rttMin.value in xs && p.rttMax in xs)
    && (forall x :: x in xs ==> 0.0 <= x && p.rttMin.value <= x <= p.rttMax)
  }

  lemma RecordIsExact(p: Poll, rtt: real, xs: seq<real>)
    requires RttExact(p, xs) && rtt >= 0.0
    ensures RttExact(RecordRtt(p, rtt).(polls := p.polls + 1, packetsSeen := p.packetsSeen + 1), xs + [rtt])
  {
    var ys := xs + [rtt];
    assert ys[..|ys| - 1] == xs && rtt in ys;
    assert forall x :: x in ys <==> x in xs || x == rtt;
  }

  lemma SortedKeepsRtts(p: Poll, starts: bool, packet: StatusPacket, connected: bool, xs: seq<real>)
    requires RttExact(p, xs)
    ensures RttExact(Sorted(p, starts, packet, connected), xs)
  {
  }

  lemma PollOnceIsExact(p: Poll, r: PollRead, xs: seq<real>)
    requires RttExact(p, xs) && (r.ReadGave? ==> r.rtt >= 0.0)
    ensures RttExact(PollOnce(p, r), xs + if r.ReadGave? then [r.rtt] else [])
  {
    if r.ReadGave? {
      RecordIsExact(p, r.rtt, xs);
      SortedKeepsRtts(RecordRtt(p, r.rtt).(polls := p.polls + 1, packetsSeen := p.packetsSeen + 1),
                      LooksLikePacketStart(r.data), Decode(r.data), r.connected, xs + [r.rtt]);
    } else {
      assert xs + [] == xs;
    }
  }

  /** The counters hold the true minimum, maximum and sum of the round trips. */
  lemma {:induction false} RttsAreExact(rs: seq<PollRead>)
    requires NonNegative(rs)
    ensures RttExact(PollRun(FreshPoll(), rs), Rtts(rs))
  {
    if rs != [] {
      assert Last(rs) in rs;
      RttsAreExact(rs[..|rs| - 1]);
      PollOnceIsExact(PollRun(FreshPoll(), rs[..|rs| - 1]), Last(rs), Rtts(rs[..|rs| - 1]));
    }
  }

  /** The reported minimum, mean and maximum are those of the round trips, in milliseconds and in
      order. */
  lemma RttIsOrdered(p: Poll)
    requires RttBracketed(p) && p.polls > 0
    ensures PollRttMs(p).Some?
    ensures var (lo, mean, hi) := PollRttMs(p).value;
            && lo <= mean <= hi
            && lo == 1000.0 * p.rttMin.value && hi == 1000.0 * p.rttMax && mean * p.polls as real == 1000.0 * p.rttSum
  {
    var n := p.polls as real;
    assert p.rttMin.value * n / n == p.rttMin.value;
    assert p.rttMax * n / n == p.rttMax;
    assert p.rttMin.value <= p.rttSum / n <= p.rttMax;
  }
}
