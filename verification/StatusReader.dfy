/** `StatusReader` in its own form. The methods that cover one piece of code between two awaits
    are proved to be one step of `ReaderSteps`; the poll loop keeps its loop. */
module StatusReaders {
  import opened Wrappers
  import opened Constants
  import opened Packets
  import opened DeviceState
  import opened ReaderSteps

  class StatusReader {
    var running: bool
    var stopPc: StopPc
    // follow-up reads
    var completion: Option<nat>
    var inFlight: map<nat, seq<byte>>
    var nextTask: nat
    // counters
    var packetsSeen: nat
    var partialsSeen: nat
    var rejectedChecksum: nat
    var rejectedNotAPacket: nat
    var droppedWhileBusy: nat
    var polls: nat
    var pollsWhole: nat
    var pollsPartial: nat
    var pollsAlien: nat
    var pollFailures: nat
    var rttMin: Option<real>
    var rttMax: real
    var rttSum: real
    // the calls made to `on_state`
    var delivered: seq<Reading>

    ghost function View(): Notify
      reads this
    {
      Notify(running, stopPc, completion, inFlight, nextTask, packetsSeen, partialsSeen, rejectedChecksum,
             rejectedNotAPacket, droppedWhileBusy, delivered)
    }

    ghost function PollView(): Poll
      reads this
    {
      Poll(packetsSeen, polls, pollsWhole, pollsPartial, pollsAlien, pollFailures, rejectedChecksum,
           rttMin, rttMax, rttSum, delivered)
    }

    constructor ()
      ensures View() == Fresh() && PollView() == FreshPoll()
    {
      running, stopPc, completion, inFlight, nextTask := false, NoStop, None, map[], 0;
      packetsSeen, partialsSeen, rejectedChecksum, rejectedNotAPacket, droppedWhileBusy := 0, 0, 0, 0, 0;
      polls, pollsWhole, pollsPartial, pollsAlien, pollFailures := 0, 0, 0, 0, 0;
      rttMin, rttMax, rttSum, delivered := None, 0.0, 0.0, [];
    }

    method PublishPacket(packet: StatusPacket, connected: bool)
      modifies this`rejectedChecksum, this`delivered
      ensures View() == Publish(old(View()), packet, connected)
      ensures if packet.IsTrustworthy()
              then delivered == old(delivered) + [Reading(FromStatus(packet, connected), packet)]
                   && rejectedChecksum == old(rejectedChecksum)
              else delivered == old(delivered) && rejectedChecksum == old(rejectedChecksum) + 1
    {
      if !packet.IsTrustworthy() {
        rejectedChecksum := rejectedChecksum + 1;
        return;
      }
      delivered := delivered + [Reading(FromStatus(packet, connected), packet)];
    }

    // ---- notifications ---------------------------------------------------------------------

    /** The follow-up read of a partial notification, unless one is already in flight. */
    method FetchRemainder(data: seq<byte>)
      modifies this`droppedWhileBusy, this`partialsSeen, this`completion, this`inFlight, this`nextTask
      ensures var v := old(View());
              View() == if Busy(v) then v.(droppedWhileBusy := v.droppedWhileBusy + 1)
                        else v.(partialsSeen := v.partialsSeen + 1, completion := Some(v.nextTask),
                                inFlight := v.inFlight[v.nextTask := data], nextTask := v.nextTask + 1)
    {
      if completion.Some? && completion.value in inFlight {
        droppedWhileBusy := droppedWhileBusy + 1;
        return;
      }
      partialsSeen := partialsSeen + 1;
      completion, inFlight, nextTask := Some(nextTask), inFlight[nextTask := data], nextTask + 1;
    }

    /** `_on_notify` */
    method Notification(data: seq<byte>, connected: bool)
      modifies this
      ensures View() == Step(old(View()), Notified(data, connected))
    {
      packetsSeen := packetsSeen + 1;
      if !LooksLikePacketStart(data) {
        rejectedNotAPacket := rejectedNotAPacket + 1;
        return;
      }
      var packet := DecodeStatus(data);
      if !packet.IsComplete() {
        FetchRemainder(data);
        return;
      }
      PublishPacket(packet, connected);
    }

    /** `_complete_partial` after its read has returned. */
    method Completed(task: nat, remainder: seq<byte>, connected: bool)
      requires Enabled(View(), ReadReturned(task, remainder, connected))
      modifies this
      ensures View() == Step(old(View()), ReadReturned(task, remainder, connected))
    {
      var first := inFlight[task];
      inFlight := inFlight - {task};
      var packet := DecodeStatus(Reassemble(first, remainder));
      PublishPacket(packet, connected);
    }

    /** `_complete_partial` after its read has failed, or after it was cancelled. */
    method Abandoned(task: nat)
      requires task in inFlight
      modifies this`inFlight
      ensures View() == EndTask(old(View()), task)
    {
      inFlight := inFlight - {task};
    }

    method Stop()
      requires Enabled(View(), StopCalled)
      modifies this`running, this`stopPc, this`completion
      ensures View() == Step(old(View()), StopCalled)
      ensures !running
      ensures old(running) ==>
                stopPc == if old(Busy(View())) then AwaitingCancelled(old(completion).value) else Unsubscribing
    {
      if !running {
        return;
      }
      running := false;
      if completion.Some? && completion.value in inFlight {
        stopPc := AwaitingCancelled(completion.value);
      } else {
        completion, stopPc := None, Unsubscribing;
      }
    }

    /** `stop` after the read it cancelled has ended. */
    method ResumeStop()
      requires Enabled(View(), StopResumed)
      modifies this`completion, this`stopPc
      ensures View() == Step(old(View()), StopResumed)
    {
      completion := None;
      stopPc := Unsubscribing;
    }

    // ---- polling ---------------------------------------------------------------------------

    method Record(rtt: real)
      modifies this`rttMin, this`rttMax, this`rttSum
      ensures PollView() == RecordRtt(old(PollView()), rtt)
    {
      rttSum := rttSum + rtt;
      rttMin := if rttMin.None? then Some(rtt) else Some(if rtt < rttMin.value then rtt else rttMin.value);
      rttMax := if rtt > rttMax then rtt else rttMax;
    }

    method ClassifyPoll(data: seq<byte>, connected: bool)
      modifies this`pollsWhole, this`pollsPartial, this`pollsAlien, this`rejectedChecksum, this`delivered
      ensures PollView() == Classify(old(PollView()), data, connected)
    {
      if LooksLikePacketStart(data) {
        var packet := DecodeStatus(data);
        if packet.IsComplete() {
          pollsWhole := pollsWhole + 1;
          PublishPacket(packet, connected);
          return;
        }
        pollsPartial := pollsPartial + 1;
      } else {
        pollsAlien := pollsAlien + 1;
      }
    }

    /** `_poll_loop`, over the reads it makes until it is cancelled. */
    method PollLoop(answers: seq<PollRead>)
      modifies this`polls, this`packetsSeen, this`pollsWhole, this`pollsPartial, this`pollsAlien, this`pollFailures,
               this`rejectedChecksum, this`delivered, this`rttMin, this`rttMax, this`rttSum
      ensures PollView() == PollRun(old(PollView()), answers)
    {
      var i := 0;
      while i < |answers|
        invariant i <= |answers|
        invariant PollView() == PollRun(old(PollView()), answers[..i])
      {
        ghost var before := PollView();
        match answers[i] {
          case ReadRaised =>
            pollFailures := pollFailures + 1;
          case ReadGave(data, rtt, connected) =>
            Record(rtt);
            polls := polls + 1;
            packetsSeen := packetsSeen + 1;
            ClassifyPoll(data, connected);
        }
        assert PollView() == PollOnce(before, answers[i]);
        assert answers[..i + 1][..i] == answers[..i];
        i := i + 1;
      }
      assert answers[..i] == answers;
    }
  }
}
