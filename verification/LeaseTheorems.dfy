/** What every run of the lease promises its owner. */
module LeaseTheorems {
  import opened Wrappers
  import opened Lease
  import opened LeaseSafety

  function Reached(c: Config, t0: real, es: seq<Event>): State {
    Run(c, Init(c, t0), es)
  }

  lemma ReachedIsSafe(c: Config, t0: real, es: seq<Event>)
    ensures Safe(Reached(c, t0, es))
  {
    InitIsSafe(c, t0);
    RunIsSafe(c, Init(c, t0), es);
  }

  // ---- yields ------------------------------------------------------------------------------

  /** A yield outstanding, with no call still tearing down, means the owner has the slot:
      whatever reconnect was in flight when it arrived. The link says so exactly when the
      session was not itself started under that yield; then it goes on saying CONNECTING. */
  lemma YieldNeverLosesARace(c: Config, t0: real, es: seq<Event>)
    ensures var s := Reached(c, t0, es);
            s.yieldUntil.Some? && s.yielders == map[] ==>
              && !s.radio.up && s.radio.subs == 0 && !TakingLink(s)
              && (s.link == YIELDED <==> !s.startedYielded)
  {
    ReachedIsSafe(c, t0, es);
  }

  /** That other label is really reached: a link yielded before the session starts reads
      CONNECTING once it has, although the owner holds the slot. */
  lemma StartUnderYieldSaysConnecting(c: Config, t0: real)
    ensures exists es :: var s := Reached(c, t0, es);
              s.yieldUntil.Some? && s.now < s.yieldUntil.value && s.yielders == map[]
              && !s.radio.up && s.link == CONNECTING && s.startedYielded
  {
    var es := Then(c, t0, [], YieldCalled(0, 1.0));
    es := Then(c, t0, es, Grant);
    es := Then(c, t0, es, StopReturned);
    es := Then(c, t0, es, DisconnectReturned);
    assert Reached(c, t0, es).yielders == map[];
    es := Then(c, t0, es, Start);
    assert Reached(c, t0, es).link == CONNECTING;
  }

  /** Every `yield_link` call that returns leaves the link down and says so, even when it was
      resumed, overtaken by another yield, or had expired on the way. */
  lemma YieldReturnsReleased(c: Config, t0: real, es: seq<Event>, i: nat)
    ensures var s := Reached(c, t0, es);
            var s' := Next(c, s, DisconnectReturned);
            i in s.yielders && i !in s'.yielders ==>
              !s'.radio.up && !s'.radio.running && s'.link == YIELDED && s'.holder.None?
  {
    ReachedIsSafe(c, t0, es);
  }

  /** Neither ends a yield early nor replaces its deadline. */
  predicate LeavesYieldsAlone(es: seq<Event>) {
    forall e :: e in es ==> !e.Resumed? && !e.YieldCalled?
  }

  /** The owner holds the slot under a yield that ends at `deadline`. */
  ghost predicate Released(s: State, deadline: real) {
    && s.yieldUntil == Some(deadline) && s.yielders == map[]
    && !s.radio.up && (s.link == YIELDED <==> !s.startedYielded)
  }

  lemma StepKeepsReleased(c: Config, s: State, e: Event, deadline: real)
    requires Safe(s) && Released(s, deadline) && s.now < deadline
    requires Enabled(c, s, e) && !e.Resumed? && !e.YieldCalled?
    ensures Released(Step(c, s, e), deadline)
  {
    assert s.holder.Some? ==> Holding(s, s.holder.value);
    assert s.queue != [] ==> Queued(s, s.queue[0]);
  }

  lemma {:induction false} TimePasses(c: Config, s: State, es: seq<Event>)
    ensures s.now <= Run(c, s, es).now
  {
    if es != [] {
      TimePasses(c, s, es[..|es| - 1]);
    }
  }

  /** Until its deadline a completed yield is undisturbed by anything but a resume or another
      yield: no check, reconnect, drop or adapter report takes the link back. */
  lemma {:induction false} YieldLasts(c: Config, s: State, es: seq<Event>, deadline: real)
    requires Safe(s) && s.yieldUntil == Some(deadline) && s.yielders == map[]
    requires LeavesYieldsAlone(es)
    requires Run(c, s, es).now < deadline
    ensures Released(Run(c, s, es), deadline)
  {
    if es != [] {
      var front, last := es[..|es| - 1], Last(es);
      assert last in es && forall e :: e in front ==> e in es;
      var mid := Run(c, s, front);
      assert mid.now <= Run(c, s, es).now;
      YieldLasts(c, s, front, deadline);
      RunIsSafe(c, s, front);
      if Enabled(c, mid, last) {
        StepKeepsReleased(c, mid, last, deadline);
      }
    }
  }

  // ---- a yield is served -------------------------------------------------------------------

  /** The events by which a task moves through the lock. */
  predicate LockEvent(e: Event) {
    e.Grant? || e.StopReturned? || e.DisconnectReturned? || e.ConnectReturned? || e.SubscribeReturned?
  }

  /** How many lock events the present holder may still need. */
  function HolderSteps(s: State): nat {
    if s.holder.None? then 0
    else if AwaitingStop(s) || s.main.Connecting? then 2
    else 1
  }

  function Position(q: seq<Task>, t: Task): nat
    requires t in q
    ensures Position(q, t) < |q| && q[Position(q, t)] == t
  {
    if q[0] == t then 0 else 1 + Position(q[1..], t)
  }

  /** The task holds the lock or is in line for it. */
  predicate Waiting(s: State, t: Task) {
    Holding(s, t) || Queued(s, t)
  }

  /** The supervisor leaves its teardown and at once lines up again to connect: a new turn. */
  predicate Requeues(s: State, e: Event, t: Task) {
    t == Main && e.DisconnectReturned? && s.main.Disconnecting?
  }

  /** An upper bound on the lock events before task `t` has its lock section behind it. */
  ghost function Ahead(s: State, t: Task): nat
    requires LockOk(s) && Waiting(s, t)
  {
    if s.holder == Some(t) then HolderSteps(s)
    else assert t in s.queue by { assert !Holding(s, t) && Queued(s, t); }
         HolderSteps(s) + 3 * (Position(s.queue, t) + 1)
  }

  lemma PositionAppend(q: seq<Task>, t: Task, x: Task)
    requires t in q
    ensures t in q + [x] && Position(q + [x], t) == Position(q, t)
  {
    if q[0] != t {
      assert (q + [x])[1..] == q[1..] + [x];
      PositionAppend(q[1..], t, x);
    }
  }

  lemma GrantMovesUp(c: Config, s: State, t: Task)
    requires Safe(s) && Enabled(c, s, Grant) && Waiting(s, t) && Waiting(Step(c, s, Grant), t)
    ensures LockOk(Step(c, s, Grant))
    ensures Ahead(Step(c, s, Grant), t) < Ahead(s, t)
  {
    var s' := Step(c, s, Grant);
    StepKeepsLock(c, s, Grant);
    assert Queued(s, t) <==> t in s.queue;
    assert Holding(s, t) <==> s.holder == Some(t);
    assert Queued(s, s.queue[0]);
    assert Queued(s', t) <==> t in s'.queue;
    assert Holding(s', t) <==> s'.holder == Some(t);
  }

  lemma FewerHolderSteps(s: State, s': State, t: Task)
    requires LockOk(s) && LockOk(s') && Waiting(s, t) && Waiting(s', t)
    requires HolderSteps(s') < HolderSteps(s)
    requires s.holder == Some(t) ==> s'.holder == s.holder
    requires s'.holder == Some(t) ==> s.holder == s'.holder
    requires s'.queue == s.queue || s'.queue == s.queue + [Main]
    ensures Ahead(s', t) < Ahead(s, t)
  {
    assert Holding(s, t) <==> s.holder == Some(t);
    assert Queued(s, t) <==> t in s.queue;
    if t in s.queue && s'.queue != s.queue {
      PositionAppend(s.queue, t, Main);
    }
  }

  lemma HolderStepsDrop(c: Config, s: State, e: Event)
    requires LockOk(s) && Enabled(c, s, e) && LockEvent(e) && !e.Grant?
    ensures HolderSteps(Step(c, s, e)) < HolderSteps(s)
    ensures Step(c, s, e).holder.None? || Step(c, s, e).holder == s.holder
    ensures Step(c, s, e).queue == s.queue || Step(c, s, e).queue == s.queue + [Main]
  {
    assert Holding(s, Main) <==> s.holder == Some(Main);
  }

  lemma HolderMovesUp(c: Config, s: State, e: Event, t: Task)
    requires Safe(s) && Enabled(c, s, e) && LockEvent(e) && !e.Grant? && !Requeues(s, e, t)
    requires Waiting(s, t) && Waiting(Step(c, s, e), t)
    ensures LockOk(Step(c, s, e))
    ensures Ahead(Step(c, s, e), t) < Ahead(s, t)
  {
    var s' := Step(c, s, e);
    StepKeepsLock(c, s, e);
    HolderStepsDrop(c, s, e);
    assert Holding(s, t) <==> s.holder == Some(t);
    assert Holding(s', t) <==> s'.holder == Some(t);
    FewerHolderSteps(s, s', t);
  }

  lemma OthersLeaveTheLine(c: Config, s: State, e: Event)
    requires Safe(s) && Enabled(c, s, e) && !LockEvent(e)
    ensures HolderSteps(Step(c, s, e)) == HolderSteps(s) && Step(c, s, e).holder == s.holder
    ensures Step(c, s, e).queue == s.queue
            || exists x :: Step(c, s, e).queue == s.queue + [x]
  {
    var newcomer := if e.YieldCalled? then Yielder(e.id) else Main;
    assert e.Start? || e.WakeUp? || e.YieldCalled? ==> !Queued(s, newcomer) && !Holding(s, newcomer);
    assert s.holder.Some? ==> Holding(s, s.holder.value);
  }

  lemma SameLine(s: State, s': State, t: Task)
    requires LockOk(s) && LockOk(s') && Waiting(s, t) && Waiting(s', t)
    requires HolderSteps(s') == HolderSteps(s) && s'.holder == s.holder
    requires s'.queue == s.queue || exists x :: s'.queue == s.queue + [x]
    ensures Ahead(s', t) <= Ahead(s, t)
  {
    assert Holding(s, t) <==> s.holder == Some(t);
    assert Queued(s, t) <==> t in s.queue;
    if t in s.queue && s'.queue != s.queue {
      PositionAppend(s.queue, t, Last(s'.queue));
    }
  }

  /** No lock event is wasted, and nothing else pushes a waiting task back. */
  lemma TaskMovesUp(c: Config, s: State, e: Event, t: Task)
    requires Safe(s) && Enabled(c, s, e) && Waiting(s, t) && Waiting(Step(c, s, e), t) && !Requeues(s, e, t)
    ensures LockOk(Step(c, s, e))
    ensures Ahead(Step(c, s, e), t) <= Ahead(s, t)
    ensures LockEvent(e) ==> Ahead(Step(c, s, e), t) < Ahead(s, t)
  {
    if e.Grant? {
      GrantMovesUp(c, s, t);
    } else if LockEvent(e) {
      HolderMovesUp(c, s, e, t);
    } else {
      StepKeepsLock(c, s, e);
      OthersLeaveTheLine(c, s, e);
      SameLine(s, Step(c, s, e), t);
    }
  }

  /** While any task holds or awaits the lock some lock event can happen: nothing deadlocks. */
  lemma LockNeverStuck(c: Config, s: State, t: Task)
    requires Safe(s) && Waiting(s, t)
    ensures exists e :: LockEvent(e) && Enabled(c, s, e)
  {
    assert Holding(s, t) <==> s.holder == Some(t);
    assert Queued(s, t) <==> t in s.queue;
    if s.holder.None? {
      assert Enabled(c, s, Grant);
    } else {
      assert Holding(s, s.holder.value);
      if AwaitingStop(s) {
        assert Enabled(c, s, StopReturned);
      } else if AwaitingDisconnect(s) {
        assert Enabled(c, s, DisconnectReturned);
      } else if s.main.Connecting? {
        assert Enabled(c, s, ConnectReturned(true));
      } else {
        assert Enabled(c, s, SubscribeReturned(true));
      }
    }
  }

  /** How many lock events really happen along a run. */
  function LockEvents(c: Config, s: State, es: seq<Event>): nat {
    if es == [] then 0
    else LockEvents(c, s, es[..|es| - 1])
         + if LockEvent(Last(es)) && Enabled(c, Run(c, s, es[..|es| - 1]), Last(es)) then 1 else 0
  }

  /** Bounded waiting, for yields and for the supervisor alike: a turn at the lock is over by the
      time as many lock events have happened as were ahead of it, whatever competes. */
  lemma {:induction false} TurnIsServed(c: Config, s: State, es: seq<Event>, t: Task)
    requires Safe(s) && Waiting(s, t)
    requires forall k :: 0 <= k <= |es| ==> Waiting(Run(c, s, es[..k]), t)
    requires forall k :: 0 <= k < |es| ==> !Requeues(Run(c, s, es[..k]), es[k], t)
    ensures LockOk(Run(c, s, es)) && Waiting(Run(c, s, es), t)
    ensures LockEvents(c, s, es) + Ahead(Run(c, s, es), t) <= Ahead(s, t)
    ensures LockEvents(c, s, es) < Ahead(s, t)
  {
    RunIsSafe(c, s, es);
    assert es[..|es|] == es;
    if es != [] {
      var front := es[..|es| - 1];
      assert forall k :: 0 <= k <= |front| ==> front[..k] == es[..k];
      assert Waiting(Run(c, s, es[..|front|]), t) && !Requeues(Run(c, s, es[..|front|]), es[|front|], t);
      TurnIsServed(c, s, front, t);
      RunIsSafe(c, s, front);
      if Enabled(c, Run(c, s, front), Last(es)) {
        TaskMovesUp(c, Run(c, s, front), Last(es), t);
      }
    }
    assert Holding(Run(c, s, es), t) <==> Run(c, s, es).holder == Some(t);
  }

  /** A yield call has returned by the time as many lock events have happened as were ahead of
      it, however many reconnects and other yields compete for the link. */
  lemma YieldIsServed(c: Config, s: State, es: seq<Event>, i: nat)
    requires Safe(s) && i in s.yielders
    requires forall k :: 0 <= k <= |es| ==> i in Run(c, s, es[..k]).yielders
    ensures LockEvents(c, s, es) < Ahead(s, Yielder(i))
  {
    TurnIsServed(c, s, es, Yielder(i));
  }

  // ---- link and subscription discipline ----------------------------------------------------

  /** Taking and releasing the link never overlap, and the status characteristic never has
      two subscriptions. */
  lemma OneSectionOneSubscription(c: Config, t0: real, es: seq<Event>, t: Task, u: Task)
    ensures var s := Reached(c, t0, es);
            && (Holding(s, t) && Holding(s, u) ==> t == u)
            && s.radio.subs <= 1
            && (s.radio.running ==> s.radio.subs == 1)
            && (TakingLink(s) ==> s.radio.subs == 0 && !s.radio.running)
  {
    ReachedIsSafe(c, t0, es);
  }

  /** Right after a supervision check with no yield outstanding, the link says exactly what the
      transport says; and only a live client was found connected. */
  lemma CheckIsHonest(c: Config, t0: real, es: seq<Event>)
    ensures var s := Reached(c, t0, es);
            Enabled(c, s, WakeUp) ==>
              var s' := Step(c, s, WakeUp);
              s'.yieldUntil.None? ==>
                && (s'.link == CONNECTED <==> s'.radio.up)
                && (s'.link == LOST <==> !s'.radio.up)
                && (s'.link == CONNECTED ==> s'.radio.hasClient)
  {
    ReachedIsSafe(c, t0, es);
  }

  /** No drop and no yield. */
  predicate Undisturbed(es: seq<Event>) {
    forall e :: e in es ==> !e.Dropped? && !e.YieldCalled?
  }

  /** What an honest check leaves behind: CONNECTED is said of a live link only, and a live link
      that is called LOST is one whose subscription is still to come, or has failed. */
  ghost predicate SpeaksTrue(s: State) {
    && s.yieldUntil.None? && s.yielders == map[] && !s.booting && !s.main.Unstarted?
    && (s.link == CONNECTED || s.link == LOST)
    && (s.link == CONNECTED ==> s.radio.up && s.main.Sleeping?)
    && (s.main.Subscribing? ==> s.radio.up)
    && (s.link == LOST && s.radio.up ==> s.main.Subscribing? || s.radio.startFailed)
  }

  lemma StepSpeaksTrue(c: Config, s: State, e: Event)
    requires Safe(s) && SpeaksTrue(s) && Enabled(c, s, e) && !e.Dropped? && !e.YieldCalled?
    ensures SpeaksTrue(Step(c, s, e))
  {
    assert Holding(s, Main) <==> s.holder == Some(Main);
    if e.Grant? {
      assert Queued(s, s.queue[0]);
    } else if s.holder.Some? {
      assert Holding(s, s.holder.value) && s.holder == Some(Main);
    }
  }

  /** From a check with no yield outstanding until the next drop or yield, whatever the
      supervisor goes through meanwhile, the link tells the truth about the transport. */
  lemma {:induction false} CheckStaysHonest(c: Config, s: State, es: seq<Event>)
    requires Safe(s) && s.yielders == map[] && Enabled(c, s, WakeUp)
    requires Step(c, s, WakeUp).yieldUntil.None? && Undisturbed(es)
    ensures SpeaksTrue(Run(c, Step(c, s, WakeUp), es))
  {
    var s' := Step(c, s, WakeUp);
    if es != [] {
      var front := es[..|es| - 1];
      assert Last(es) in es && forall e :: e in front ==> e in es;
      CheckStaysHonest(c, s, front);
      assert Run(c, s, [WakeUp]) == s' by { assert [WakeUp][..0] == []; }
      RunIsSafe(c, s, [WakeUp]);
      RunIsSafe(c, s', front);
      var mid := Run(c, s', front);
      if Enabled(c, mid, Last(es)) {
        StepSpeaksTrue(c, mid, Last(es));
      }
    }
  }

  /** The link never overclaims: CONNECTED only at rest with a client held, or one that a yield
      is dropping at that moment; LOST all through a reconnect, CONNECTING all through a boot and
      STOPPED after a failed one, unless a yield has completed since. */
  lemma LinkNeverOverclaims(c: Config, t0: real, es: seq<Event>)
    ensures var s := Reached(c, t0, es);
            && (s.link == CONNECTED ==> s.main.Sleeping? && (s.radio.hasClient || AwaitingDisconnect(s)))
            && (Reconnecting(s) && s.link != YIELDED ==> s.link == LOST)
            && (s.booting && s.link != YIELDED ==> s.link == CONNECTING)
            && (s.main.Unstarted? && s.link != YIELDED ==> s.link == STOPPED)
  {
    ReachedIsSafe(c, t0, es);
  }

  /** A held client that nobody is taking or giving up has a running reader exactly when its
      own `commander.start` did not fail. */
  lemma ReaderRunsIffStartSucceeded(c: Config, t0: real, es: seq<Event>)
    ensures var s := Reached(c, t0, es);
            s.radio.hasClient && !TakingLink(s) && !AwaitingStop(s) ==>
              (s.radio.running <==> !s.radio.startFailed)
  {
    ReachedIsSafe(c, t0, es);
  }

  lemma Then(c: Config, t0: real, es: seq<Event>, e: Event) returns (more: seq<Event>)
    ensures Reached(c, t0, more) == Next(c, Reached(c, t0, es), e)
  {
    more := es + [e];
    assert more[..|more| - 1] == es;
  }

  /** Nothing is outstanding and the lock is free. */
  predicate Quiet(s: State) {
    s.yieldUntil.None? && s.holder.None? && s.queue == [] && !s.booting
  }

  lemma ARunThatBoots(c: Config, t0: real) returns (es: seq<Event>)
    ensures var s := Reached(c, t0, es); Quiet(s) && s.main.Sleeping? && s.main.wakeAt == s.now + c.interval
  {
    es := [];
    es := Then(c, t0, es, Start);
    es := Then(c, t0, es, Grant);
    es := Then(c, t0, es, ConnectReturned(true));
    es := Then(c, t0, es, SubscribeReturned(true));
  }

  lemma ThenALinkIsLost(c: Config, t0: real, before: seq<Event>) returns (es: seq<Event>)
    requires c.interval >= 0.0
    requires var s := Reached(c, t0, before); Quiet(s) && s.main.Sleeping? && s.main.wakeAt == s.now + c.interval
    ensures var s := Reached(c, t0, es);
            s.main.ConnectQueued? && s.queue == [Main] && s.holder.None? && s.yieldUntil.None? && !s.booting
            && !s.radio.running
  {
    es := before;
    es := Then(c, t0, es, Dropped);
    es := Then(c, t0, es, Tick(c.interval));
    es := Then(c, t0, es, WakeUp);
    es := Then(c, t0, es, Grant);
    es := Then(c, t0, es, StopReturned);
    es := Then(c, t0, es, DisconnectReturned);
  }

  /** CONNECTED, on a live link that nobody listens to. */
  ghost predicate Deaf(s: State) {
    && s.link == CONNECTED && s.radio.up && !s.radio.running
    && s.main.Sleeping? && s.holder.None? && s.queue == [] && s.yieldUntil.None?
  }

  /** Without that hypothesis CONNECTED promises no reader: when a reconnect gets its link but
      not its subscription, the next check adopts the live link and nobody listens to it. */
  lemma AdoptedLinkCanBeDeaf(c: Config, t0: real)
    requires c.interval >= 0.0
    ensures exists es :: Deaf(Reached(c, t0, es))
  {
    var es := ARunThatBoots(c, t0);
    es := ThenALinkIsLost(c, t0, es);
    es := Then(c, t0, es, Grant);
    es := Then(c, t0, es, ConnectReturned(true));
    es := Then(c, t0, es, SubscribeReturned(false));
    es := Then(c, t0, es, Tick(Magnitude(Reached(c, t0, es).pace.backoff)));
    es := Then(c, t0, es, BackoffExpired);
    es := Then(c, t0, es, Tick(c.interval));
    es := Then(c, t0, es, WakeUp);
    assert Deaf(Reached(c, t0, es));
  }

  /** And nothing ever notices: only a drop or a yield ends that state, however many checks are
      made of it. */
  lemma {:induction false} DeafnessLasts(c: Config, s: State, es: seq<Event>)
    requires Deaf(s) && Undisturbed(es)
    ensures Deaf(Run(c, s, es))
  {
    if es != [] {
      var front := es[..|es| - 1];
      assert Last(es) in es && forall e :: e in front ==> e in es;
      DeafnessLasts(c, s, front);
    }
  }

  function Magnitude(x: real): real {
    if x < 0.0 then -x else x
  }
}
