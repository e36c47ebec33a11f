/**
 Status acquisition as transition systems: notifications completed by follow-up reads, and
 whole-packet polling.

 A follow-up read is a task with an identity, so that "only one in flight" is something to
 prove: `completion` is the reader's reference to the last read it began, `inFlight` the
 reads that have not ended, with the fragment each of them holds. (The transport queues its GATT
 operations; a read here is one outstanding `_complete_partial`.)
 */
module ReaderSteps {
  import opened Wrappers
  import opened Constants
  import opened Packets
  import opened DeviceState

  /** Where a `stop` call is: not running, awaiting a cancelled read, or unsubscribing. */
  datatype StopPc = NoStop | AwaitingCancelled(task: nat) | Unsubscribing

  datatype Notify = Notify(
    running: bool,
    stopPc: StopPc,
    completion: Option<nat>,
    inFlight: map<nat, seq<byte>>,
    nextTask: nat,
    packetsSeen: nat,
    partialsSeen: nat,
    rejectedChecksum: nat,
    rejectedNotAPacket: nat,
    droppedWhileBusy: nat,
    delivered: seq<Reading>)

  datatype Event =
    | Subscribed
    | Notified(data: seq<byte>, connected: bool)
    | ReadReturned(task: nat, remainder: seq<byte>, connected: bool)
    | ReadFailed(task: nat)
    | StopCalled
    | ReadCancelled(task: nat)
    | StopResumed
    | UnsubscribeReturned

  function Fresh(): Notify {
    Notify(false, NoStop, None, map[], 0, 0, 0, 0, 0, 0, [])
  }

  /** `_completion is not None and not _completion.done()` */
  predicate Busy(v: Notify) {
    v.completion.Some? && v.completion.value in v.inFlight
  }

  function Publish(v: Notify, packet: StatusPacket, connected: bool): Notify {
    if packet.IsTrustworthy() then
      v.(delivered := v.delivered + [Reading(FromStatus(packet, connected), packet)])
    else
      v.(rejectedChecksum := v.rejectedChecksum + 1)
  }

  /** What a notification does once it has been looked at: whether it begins a packet, and what
      it decodes to. */
  function Received(v: Notify, data: seq<byte>, starts: bool, packet: StatusPacket, connected: bool): Notify {
    var v1 := v.(packetsSeen := v.packetsSeen + 1);
    if !starts then
      v1.(rejectedNotAPacket := v.rejectedNotAPacket + 1)
    else if packet.IsComplete() then
      Publish(v1, packet, connected)
    else if Busy(v) then
      v1.(droppedWhileBusy := v.droppedWhileBusy + 1)
    else
      v1.(partialsSeen := v.partialsSeen + 1,
          completion := Some(v.nextTask),
          inFlight := v.inFlight[v.nextTask := data],
          nextTask := v.nextTask + 1)
  }

  function OnNotify(v: Notify, data: seq<byte>, connected: bool): Notify {
    Received(v, data, LooksLikePacketStart(data), Decode(data), connected)
  }

  function EndTask(v: Notify, task: nat): Notify {
    v.(inFlight := v.inFlight - {task})
  }

  function CompletePartial(v: Notify, task: nat, remainder: seq<byte>, connected: bool): Notify
    requires task in v.inFlight
  {
    Publish(EndTask(v, task), Decode(Reassemble(v.inFlight[task], remainder)), connected)
  }

  /** `stop` to its first await; a reader that is not running returns at once. */
  function BeginStop(v: Notify): Notify {
    if !v.running then v
    else if Busy(v) then v.(running := false, stopPc := AwaitingCancelled(v.completion.value))
    else v.(running := false, completion := None, stopPc := Unsubscribing)
  }

  predicate Enabled(v: Notify, e: Event) {
    match e
    case Subscribed => v.stopPc.NoStop?
    case Notified(_, _) => true
    case ReadReturned(task, _, _) => task in v.inFlight
    case ReadFailed(task) => task in v.inFlight
    case StopCalled => v.stopPc.NoStop?
    case ReadCancelled(task) => v.stopPc == AwaitingCancelled(task) && task in v.inFlight
    case StopResumed => v.stopPc.AwaitingCancelled? && v.stopPc.task !in v.inFlight
    case UnsubscribeReturned => v.stopPc.Unsubscribing?
  }

  function Step(v: Notify, e: Event): Notify
    requires Enabled(v, e)
  {
    match e
    case Subscribed => v.(running := true)
    case Notified(data, connected) => OnNotify(v, data, connected)
    case ReadReturned(task, remainder, connected) => CompletePartial(v, task, remainder, connected)
    case ReadFailed(task) => EndTask(v, task)
    case StopCalled => BeginStop(v)
    case ReadCancelled(task) => EndTask(v, task)
    case StopResumed => v.(completion := None, stopPc := Unsubscribing)
    case UnsubscribeReturned => v.(stopPc := NoStop)
  }

  /** An event that cannot happen leaves the state alone, so every event list is a run. */
  function Next(v: Notify, e: Event): Notify {
    if Enabled(v, e) then Step(v, e) else v
  }

  function Run(v: Notify, es: seq<Event>): Notify {
    if es == [] then v else Next(Run(v, es[..|es| - 1]), Last(es))
  }

  // ---- polling -----------------------------------------------------------------------------

  datatype PollRead =
    | ReadRaised
    | ReadGave(data: seq<byte>, rtt: real, connected: bool)

  datatype Poll = Poll(
    packetsSeen: nat,
    polls: nat,
    whole: nat,
    partial: nat,
    alien: nat,
    failures: nat,
    rejectedChecksum: nat,
    rttMin: Option<real>,
    rttMax: real,
    rttSum: real,
    delivered: seq<Reading>)

  function FreshPoll(): Poll {
    Poll(0, 0, 0, 0, 0, 0, 0, None, 0.0, 0.0, [])
  }

  predicate IsWholeRead(data: seq<byte>) {
    LooksLikePacketStart(data) && Decode(data).IsComplete()
  }

  function RecordRtt(p: Poll, rtt: real): Poll {
    p.(rttSum := p.rttSum + rtt,
       rttMin := Some(if p.rttMin.Some? && p.rttMin.value <= rtt then p.rttMin.value else rtt),
       rttMax := if rtt > p.rttMax then rtt else p.rttMax)
  }

  /** What a poll read does once it has been looked at. */
  function Sorted(p: Poll, starts: bool, packet: StatusPacket, connected: bool): Poll {
    if !starts then
      p.(alien := p.alien + 1)
    else if !packet.IsComplete() then
      p.(partial := p.partial + 1)
    else if packet.IsTrustworthy() then
      p.(whole := p.whole + 1, delivered := p.delivered + [Reading(FromStatus(packet, connected), packet)])
    else
      p.(whole := p.whole + 1, rejectedChecksum := p.rejectedChecksum + 1)
  }

  function Classify(p: Poll, data: seq<byte>, connected: bool): Poll {
    Sorted(p, LooksLikePacketStart(data), Decode(data), connected)
  }

  function PollOnce(p: Poll, r: PollRead): Poll {
    match r
    case ReadRaised => p.(failures := p.failures + 1)
    case ReadGave(data, rtt, connected) =>
      Classify(RecordRtt(p, rtt).(polls := p.polls + 1, packetsSeen := p.packetsSeen + 1), data, connected)
  }

  function PollRun(p: Poll, rs: seq<PollRead>): Poll {
    if rs == [] then p else PollOnce(PollRun(p, rs[..|rs| - 1]), Last(rs))
  }

  /** `poll_rtt_ms`: the minimum, mean and maximum in milliseconds. */
  function PollRttMs(p: Poll): Option<(real, real, real)> {
    if p.polls == 0 || p.rttMin.None? then None
    else Some((p.rttMin.value * 1000.0, p.rttSum / p.polls as real * 1000.0, p.rttMax * 1000.0))
  }
}
