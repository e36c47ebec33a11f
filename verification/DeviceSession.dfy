/** `DeviceSession` in its own form: fields that the code between two awaits updates. Each
    method is one such piece, and is proved to be one step of the lease. */
module DeviceSession {
  import opened Wrappers
  import opened DeviceState
  import opened Lease

  class Session {
    const c: Config
    // the session's own fields
    var link: LinkState
    var yieldUntil: Option<real>
    var reading: Option<Reading>
    var readingAt: Option<real>
    // the event loop: the clock, the link lock and where each task is suspended
    var now: real
    var holder: Option<Task>
    var queue: seq<Task>
    var main: MainPc
    var booting: bool
    ghost var startedYielded: bool
    var yielders: map<nat, YieldPc>
    // what the transport and the reader hold, and the supervisor's pacing with its history
    var radio: Radio
    var pace: Pace
    ghost var published: seq<Delivery>

    ghost function View(): State
      reads this
    {
      State(now, link, yieldUntil, radio, holder, queue, main, booting, startedYielded, yielders, pace,
            Cache(reading, readingAt, published))
    }

    constructor (c: Config, now: real)
      ensures this.c == c && View() == Init(c, now)
    {
      this.c := c;
      link, yieldUntil, reading, readingAt := STOPPED, None, None, None;
      this.now, holder, queue, main, booting, yielders := now, None, [], Unstarted, false, map[];
      radio, pace, published := Radio(false, false, 0, false, false), Pace(c.backoffInitial, false, None, [], now, 0, 0, []), [];
      startedYielded := false;
    }

    // ---- small pieces shared by the steps --------------------------------------------------

    method Acquire(t: Task)
      modifies this`queue
      ensures View() == Enqueue(old(View()), t)
    {
      queue := queue + [t];
    }

    method ResetBackoff()
      modifies this`pace
      ensures View() == EndStreak(c, old(View()))
    {
      pace := pace.(backoff := c.backoffInitial, waits := [], streakAt := now, streakEdges := 0);
    }

    method Sleep()
      modifies this`main, this`booting
      ensures View() == Resleep(c, old(View()))
    {
      main, booting := Sleeping(now + c.interval), false;
    }

    // ---- start and the supervisor ------------------------------------------------------------

    /** `start`, up to waiting for the link lock inside `_connect`. */
    method Begin()
      requires Enabled(c, View(), Start)
      modifies this
      ensures View() == Step(c, old(View()), Start)
    {
      link := CONNECTING;
      booting, main := true, ConnectQueued;
      startedYielded := yieldUntil.Some?;
      Acquire(Main);
    }

    /** One turn of `_supervise`, from the end of its sleep to its next await. */
    method Supervise()
      requires Enabled(c, View(), WakeUp)
      modifies this
      ensures View() == Step(c, old(View()), WakeUp)
      // Whatever the link said, a link found down is gone for again.
      ensures (old(yieldUntil).None? || old(yieldUntil).value <= now) && !radio.up ==>
                main.TeardownQueued? && queue == old(queue) + [Main] && link == LOST && yieldUntil.None?
    {
      if yieldUntil.Some? {
        if now < yieldUntil.value {
          Sleep();
          return;
        }
        yieldUntil := None;
      }
      if radio.up {
        if link != CONNECTED {
          link := CONNECTED;
        }
        ResetBackoff();
        Sleep();
        return;
      }
      link := LOST;
      main := TeardownQueued;
      Acquire(Main);
    }

    /** The lock is handed to the head of its queue, which runs to its next await. */
    method LockGranted()
      requires Enabled(c, View(), Grant)
      modifies this
      ensures View() == Step(c, old(View()), Grant)
    {
      var t := queue[0];
      holder, queue := Some(t), queue[1..];
      match t {
        case Yielder(i) =>
          yielders := yielders[i := YieldStopping];
          radio := radio.(running := false);
        case Main =>
          if main.TeardownQueued? {
            main, radio := Stopping, radio.(running := false);
          } else if yieldUntil.Some? {
            holder := None;
            ResetBackoff();
            Sleep();
          } else {
            main := Connecting;
          }
      }
    }

    /** `commander.stop()` has returned, and `transport.disconnect()` drops its client before
        it awaits anything. */
    method CommanderStopped()
      requires Enabled(c, View(), StopReturned)
      modifies this
      ensures View() == Step(c, old(View()), StopReturned)
    {
      radio := radio.(hasClient := false, up := false, subs := 0, startFailed := false);
      match holder.value {
        case Main => main := Disconnecting;
        case Yielder(i) => yielders := yielders[i := YieldDisconnecting];
      }
    }

    /** `_teardown` is over: a yield reports the link released, the supervisor arms the
        power-on event and goes on to `_connect`. */
    method Disconnected()
      requires Enabled(c, View(), DisconnectReturned)
      modifies this
      ensures View() == Step(c, old(View()), DisconnectReturned)
    {
      var t := holder.value;
      holder := None;
      match t {
        case Main =>
          pace := pace.(powerOn := false);
          main := ConnectQueued;
          Acquire(Main);
        case Yielder(i) =>
          yielders := yielders - {i};
          link, startedYielded := YIELDED, false;
      }
    }

    /** `_connect` raised. */
    method GiveUp()
      modifies this`holder, this`main, this`link, this`booting
      ensures View() == ConnectFailed(old(View()))
    {
      holder := None;
      if booting {
        link, main, booting := STOPPED, Unstarted, false;
      } else {
        main := BackingOff(now);
      }
    }

    method TransportConnected(ok: bool)
      requires Enabled(c, View(), ConnectReturned(ok))
      modifies this
      ensures View() == Step(c, old(View()), ConnectReturned(ok))
    {
      if ok {
        radio := radio.(hasClient := true, up := true, startFailed := false);
        main := Subscribing;
      } else {
        GiveUp();
      }
    }

    method CommanderStarted(ok: bool)
      requires Enabled(c, View(), SubscribeReturned(ok))
      modifies this
      ensures View() == Step(c, old(View()), SubscribeReturned(ok))
    {
      if ok {
        radio := radio.(subs := radio.subs + 1, running := true);
        link := CONNECTED;
        holder := None;
        ResetBackoff();
        Sleep();
      } else {
        radio := radio.(startFailed := true);
        GiveUp();
      }
    }

    /** `_backoff_or_power_on` is over, by its timeout or by the adapter. */
    method BackedOff(cut: bool)
      requires Enabled(c, View(), if cut then BackoffCut else BackoffExpired)
      modifies this
      ensures View() == Step(c, old(View()), if cut then BackoffCut else BackoffExpired)
    {
      var doubled := pace.backoff * 2.0;
      pace := pace.(
        backoff := if c.backoffMax < doubled then c.backoffMax else doubled,
        waits := pace.waits + [Wait(pace.backoff, cut, now - main.since)],
        cuts := pace.cuts + (if cut then 1 else 0));
      Sleep();
    }

    // ---- the lease ---------------------------------------------------------------------------

    /** `yield_link`, up to waiting for the link lock. False stands for its ValueError. */
    method YieldLink(id: nat, seconds: real) returns (accepted: bool)
      requires id !in yielders
      modifies this
      ensures accepted <==> seconds > 0.0
      ensures View() == Next(c, old(View()), YieldCalled(id, seconds))
      ensures if accepted then yieldUntil == Some(old(now) + seconds) && id in yielders else View() == old(View())
    {
      if seconds <= 0.0 {
        return false;
      }
      yieldUntil := Some(now + seconds);
      yielders := yielders[id := YieldQueued];
      Acquire(Yielder(id));
      accepted := true;
    }

    method Resume()
      modifies this
      ensures View() == Step(c, old(View()), Resumed)
    {
      if yieldUntil.None? {
        return;
      }
      yieldUntil := None;
    }

    // ---- what arrives from outside -----------------------------------------------------------

    method OnState(r: Reading)
      modifies this
      ensures View() == Step(c, old(View()), Published(r))
    {
      reading := Some(r);
      readingAt := Some(now);
      published := published + [Delivery(r, now)];
    }

    method LinkDropped()
      modifies this
      ensures View() == Step(c, old(View()), Dropped)
    {
      radio := radio.(up := false);
    }

    /** One turn of `_watch_adapter`. */
    method AdapterState(isOn: bool)
      modifies this
      ensures View() == Step(c, old(View()), AdapterReported(isOn))
    {
      if isOn && pace.wasOn == Some(false) {
        pace := pace.(powerOn := true, streakEdges := pace.streakEdges + 1);
      }
      pace := pace.(wasOn := Some(isOn), reports := pace.reports + [isOn]);
    }
  }
}
