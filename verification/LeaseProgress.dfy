/** What the lease does, and when: how long a yield lasts, that a lost link is always tried again,
    and where the back-off and the power-on event stand. Each is said of the events alone. */
module LeaseProgress {
  import opened Wrappers
  import opened Lease
  import opened LeaseSafety
  import opened LeaseTheorems
  import opened LeasePacing

  lemma OneStepIsSafe(c: Config, s: State, e: Event)
    requires Safe(s)
    ensures Safe(Next(c, s, e))
  {
    assert [e][..0] == [] && Last([e]) == e;
    assert Run(c, s, [e]) == Next(c, s, e);
    RunIsSafe(c, s, [e]);
  }

  // ---- how long a yield lasts --------------------------------------------------------------

  /** A supervision check at or after `deadline` happened along the run, or a resume. */
  function Ended(c: Config, s: State, es: seq<Event>, deadline: real): bool {
    es != [] &&
    var mid, last := Run(c, s, es[..|es| - 1]), Last(es);
    Ended(c, s, es[..|es| - 1], deadline)
    || last.Resumed? || (last.WakeUp? && Enabled(c, mid, WakeUp) && deadline <= mid.now)
  }

  /** Nobody but the owner has the link, and it is on no way back. */
  ghost predicate GivenAway(s: State) {
    !s.radio.hasClient && !s.radio.up && !TakingLink(s) && (s.link == YIELDED <==> !s.startedYielded)
  }

  lemma StepKeepsYield(c: Config, s: State, e: Event, id: nat, deadline: real)
    requires Safe(s) && Enabled(c, s, e) && !e.YieldCalled? && !e.Resumed?
    requires s.yieldUntil == Some(deadline) && (e.WakeUp? ==> s.now < deadline)
    requires id in s.yielders || GivenAway(s)
    ensures var s' := Step(c, s, e); s'.yieldUntil == Some(deadline) && (id in s'.yielders || GivenAway(s'))
  {
    assert Holding(s, Main) <==> s.holder == Some(Main);
    assert Holding(s, Yielder(id)) <==> s.holder == Some(Yielder(id));
    assert s.holder.Some? ==> Holding(s, s.holder.value);
    assert e.Grant? ==> Queued(s, s.queue[0]);
  }

  lemma StepKeepsNoYield(c: Config, s: State, e: Event)
    requires s.yieldUntil.None? && Enabled(c, s, e) && !e.YieldCalled?
    ensures Step(c, s, e).yieldUntil.None?
  {
  }

  /** The yield of call `id` stands at its deadline, and once the call has returned the link is
      given away. */
  ghost predicate Stands(s: State, id: nat, deadline: real) {
    s.yieldUntil == Some(deadline) && (id in s.yielders || GivenAway(s))
  }

  lemma {:induction false} YieldStandsOn(c: Config, s: State, id: nat, deadline: real, es: seq<Event>)
    requires Safe(s) && Stands(s, id, deadline)
    requires forall e :: e in es ==> !e.YieldCalled?
    ensures if Ended(c, s, es, deadline) then Run(c, s, es).yieldUntil.None? else Stands(Run(c, s, es), id, deadline)
  {
    if es != [] {
      var front, last := es[..|es| - 1], Last(es);
      assert last in es && forall e :: e in front ==> e in es;
      YieldStandsOn(c, s, id, deadline, front);
      RunIsSafe(c, s, front);
      var mid := Run(c, s, front);
      if Enabled(c, mid, last) && Ended(c, s, front, deadline) {
        StepKeepsNoYield(c, mid, last);
      } else if Enabled(c, mid, last) && !Ended(c, s, es, deadline) {
        StepKeepsYield(c, mid, last, id, deadline);
      }
    }
  }

  predicate Unresumed(es: seq<Event>) {
    forall e :: e in es ==> !e.Resumed?
  }

  lemma {:induction false} NothingEndsItEarly(c: Config, s: State, es: seq<Event>, deadline: real)
    requires Run(c, s, es).now < deadline && Unresumed(es)
    ensures !Ended(c, s, es, deadline)
  {
    if es != [] {
      var front, last := es[..|es| - 1], Last(es);
      assert last in es && forall e :: e in front ==> e in es;
      assert Run(c, s, front).now <= Run(c, s, es).now;
      NothingEndsItEarly(c, s, front, deadline);
    }
  }

  lemma YieldBegins(c: Config, s: State, id: nat, seconds: real)
    requires Safe(s) && id !in s.yielders && seconds > 0.0
    ensures var s1 := Next(c, s, YieldCalled(id, seconds)); Safe(s1) && Stands(s1, id, s.now + seconds)
  {
    OneStepIsSafe(c, s, YieldCalled(id, seconds));
  }

  /** A yield called for `seconds` at some time stands until that much later: exactly until the
      first check from then on, or a resume. From the return of the call to that end nobody takes
      the link back, whatever reconnects, drops and other calls were under way. */
  lemma YieldStands(c: Config, s: State, id: nat, seconds: real, es: seq<Event>)
    requires Safe(s) && id !in s.yielders && seconds > 0.0
    requires forall e :: e in es ==> !e.YieldCalled?
    ensures var deadline := s.now + seconds;
            var s1 := Next(c, s, YieldCalled(id, seconds));
            var u := Run(c, s1, es);
            && u.yieldUntil == (if Ended(c, s1, es, deadline) then None else Some(deadline))
            && (!Ended(c, s1, es, deadline) && id !in u.yielders ==> GivenAway(u))
            && (u.now < deadline && Unresumed(es) ==> !Ended(c, s1, es, deadline))
  {
    var s1, deadline := Next(c, s, YieldCalled(id, seconds)), s.now + seconds;
    YieldBegins(c, s, id, seconds);
    YieldStandsOn(c, s1, id, deadline, es);
    if Unresumed(es) && Run(c, s1, es).now < deadline {
      NothingEndsItEarly(c, s1, es, deadline);
    }
  }

  /** The deadline that a history of calls, resumes and checks leaves outstanding. */
  function Outstanding(c: Config, s: State, es: seq<Event>): Option<real> {
    if es == [] then s.yieldUntil
    else
      var mid, before := Run(c, s, es[..|es| - 1]), Outstanding(c, s, es[..|es| - 1]);
      match Last(es)
      case YieldCalled(id, seconds) => if seconds > 0.0 && id !in mid.yielders then Some(mid.now + seconds) else before
      case Resumed => None
      case WakeUp =>
        if Enabled(c, mid, WakeUp) && before.Some? && before.value <= mid.now then None else before
      case _ => before
  }

  lemma StepMovesDeadline(c: Config, s: State, e: Event)
    requires !e.YieldCalled? && !e.Resumed? && !e.WakeUp?
    ensures Next(c, s, e).yieldUntil == s.yieldUntil
  {
  }

  /** Over every run the outstanding deadline is the one its calls, resumes and checks leave. */
  lemma {:induction false} YieldUntilIsOutstanding(c: Config, s: State, es: seq<Event>)
    ensures Run(c, s, es).yieldUntil == Outstanding(c, s, es)
  {
    if es != [] {
      YieldUntilIsOutstanding(c, s, es[..|es| - 1]);
      var mid, last := Run(c, s, es[..|es| - 1]), Last(es);
      if !last.YieldCalled? && !last.Resumed? && !last.WakeUp? {
        StepMovesDeadline(c, mid, last);
      }
    }
  }

  // ---- a lost link is tried again ----------------------------------------------------------

  /** No yield keeps the supervisor from the link. */
  predicate Unyielded(s: State) {
    s.yieldUntil.None? || s.yieldUntil.value <= s.now
  }

  /** This event is a check that finds the link down with nothing to keep it there. */
  predicate FindsItDown(c: Config, s: State, e: Event) {
    e.WakeUp? && Enabled(c, s, e) && Unyielded(s) && !s.radio.up
  }

  /** This event makes the supervisor go for the link. */
  predicate Attempts(c: Config, s: State, e: Event) {
    !s.booting && !s.main.Connecting? && Next(c, s, e).main.Connecting?
  }

  /** This event makes it give up the way there, for a yield. */
  predicate Abandons(c: Config, s: State, e: Event) {
    !s.booting && e.Grant? && Enabled(c, s, e) && s.queue[0] == Main && s.main.ConnectQueued? && s.yieldUntil.Some?
  }

  predicate Succeeds(c: Config, s: State, e: Event) {
    !s.booting && e == SubscribeReturned(true) && Enabled(c, s, e)
  }

  predicate BacksOff(c: Config, s: State, e: Event) {
    (e.BackoffExpired? || e.BackoffCut?) && Enabled(c, s, e)
  }

  datatype Deed = Finding | Attempt | Abandonment | Connection | Backoff

  predicate Does(c: Config, s: State, e: Event, deed: Deed) {
    match deed
    case Finding => FindsItDown(c, s, e)
    case Attempt => Attempts(c, s, e)
    case Abandonment => Abandons(c, s, e)
    case Connection => Succeeds(c, s, e)
    case Backoff => BacksOff(c, s, e)
  }

  /** How often it was done along a run. */
  function Count(c: Config, s: State, es: seq<Event>, deed: Deed): nat {
    if es == [] then 0
    else Count(c, s, es[..|es| - 1], deed) + if Does(c, Run(c, s, es[..|es| - 1]), Last(es), deed) then 1 else 0
  }

  /** The supervisor has found the link down and is on its way to take it. */
  predicate OnTheWay(s: State) {
    !s.booting && (s.main.TeardownQueued? || s.main.Stopping? || s.main.Disconnecting? || s.main.ConnectQueued?)
  }

  /** It is taking the link, or waits after having failed to. */
  predicate InHand(s: State) {
    !s.booting && (s.main.Connecting? || s.main.Subscribing? || s.main.BackingOff?)
  }

  function One(b: bool): nat {
    if b then 1 else 0
  }

  lemma FindingsBalance(c: Config, s: State, e: Event)
    requires Safe(s) && BootOk(s)
    ensures One(Does(c, s, e, Finding)) + One(OnTheWay(s))
              == One(Does(c, s, e, Attempt)) + One(Does(c, s, e, Abandonment)) + One(OnTheWay(Next(c, s, e)))
  {
    assert Holding(s, Main) <==> s.holder == Some(Main);
    if e.Grant? && Enabled(c, s, e) {
      assert Queued(s, s.queue[0]);
    }
  }

  lemma AttemptsBalance(c: Config, s: State, e: Event)
    requires Safe(s) && BootOk(s)
    ensures One(Does(c, s, e, Attempt)) + One(InHand(s))
              == One(Does(c, s, e, Connection)) + One(Does(c, s, e, Backoff)) + One(InHand(Next(c, s, e)))
  {
    assert Holding(s, Main) <==> s.holder == Some(Main);
    if e.Grant? && Enabled(c, s, e) {
      assert Queued(s, s.queue[0]);
    }
  }

  /** Over every run: each check that found the link down led to exactly one attempt, unless a
      yield came in between or it is still on its way; and each attempt succeeded, or was backed
      off after and then left to the next check, or is still in hand. Whatever the link said. */
  lemma {:induction false} EveryFindingIsActedOn(c: Config, t0: real, es: seq<Event>)
    ensures var s0 := Init(c, t0);
            var s := Run(c, s0, es);
            && Count(c, s0, es, Finding)
                 == Count(c, s0, es, Attempt) + Count(c, s0, es, Abandonment) + One(OnTheWay(s))
            && Count(c, s0, es, Attempt)
                 == Count(c, s0, es, Connection) + Count(c, s0, es, Backoff) + One(InHand(s))
  {
    if es != [] {
      var front := es[..|es| - 1];
      EveryFindingIsActedOn(c, t0, front);
      InitIsSafe(c, t0);
      RunIsSafe(c, Init(c, t0), front);
      RunKeepsPace(c, t0, front);
      FindingsBalance(c, Run(c, Init(c, t0), front), Last(es));
      AttemptsBalance(c, Run(c, Init(c, t0), front), Last(es));
    }
  }

  /** A finding queues the supervisor for its teardown. */
  lemma FindingTearsDown(c: Config, s: State)
    requires Safe(s) && FindsItDown(c, s, WakeUp)
    ensures var s' := Step(c, s, WakeUp); s'.main.TeardownQueued? && s'.link == LOST && Main in s'.queue && Safe(s')
  {
    OneStepIsSafe(c, s, WakeUp);
    assert Queued(Step(c, s, WakeUp), Main);
  }

  /** When the supervisor last went to sleep. */
  function SleptAt(c: Config, s: State, es: seq<Event>): real {
    if es == [] then s.now
    else
      var mid, last := Run(c, s, es[..|es| - 1]), Last(es);
      if mid.main.Sleeping? && !(last.WakeUp? && Enabled(c, mid, WakeUp)) then SleptAt(c, s, es[..|es| - 1])
      else mid.now
  }

  lemma SleepIsKept(c: Config, s: State, e: Event)
    requires Safe(s) && s.main.Sleeping? && !(e.WakeUp? && Enabled(c, s, e))
    ensures Next(c, s, e).main == s.main
  {
    assert Holding(s, Main) <==> s.holder == Some(Main);
    assert e.Grant? && Enabled(c, s, e) ==> Queued(s, s.queue[0]);
  }

  lemma SleepIsOneInterval(c: Config, s: State, e: Event)
    requires !s.main.Sleeping? || (e.WakeUp? && Enabled(c, s, e))
    ensures Next(c, s, e).main.Sleeping? ==> Next(c, s, e).main.wakeAt == s.now + c.interval
  {
  }

  /** Every sleep is one interval long, after a back-off as after a check; so the next check is
      due then, and finds the link down unless something has changed. */
  lemma {:induction false} ChecksAreSpaced(c: Config, t0: real, es: seq<Event>)
    ensures var s := Run(c, Init(c, t0), es);
            s.main.Sleeping? ==>
              && s.main.wakeAt == SleptAt(c, Init(c, t0), es) + c.interval
              && (Enabled(c, s, WakeUp) <==> s.now >= SleptAt(c, Init(c, t0), es) + c.interval)
  {
    if es != [] {
      ChecksAreSpaced(c, t0, es[..|es| - 1]);
      InitIsSafe(c, t0);
      RunIsSafe(c, Init(c, t0), es[..|es| - 1]);
      var mid, last := Run(c, Init(c, t0), es[..|es| - 1]), Last(es);
      if mid.main.Sleeping? && !(last.WakeUp? && Enabled(c, mid, last)) {
        SleepIsKept(c, mid, last);
      } else {
        SleepIsOneInterval(c, mid, last);
      }
    }
  }

  lemma {:induction false} SleepLasts(c: Config, s: State, es: seq<Event>)
    requires Safe(s) && s.main.Sleeping?
    requires forall e :: e in es ==> !e.WakeUp?
    ensures Run(c, s, es).main == s.main && Safe(Run(c, s, es))
  {
    RunIsSafe(c, s, es);
    if es != [] {
      var front := es[..|es| - 1];
      assert Last(es) in es && forall e :: e in front ==> e in es;
      SleepLasts(c, s, front);
      SleepIsKept(c, Run(c, s, front), Last(es));
    }
  }

  /** After a back-off that has ended, an interval later and not before, the next check is
      possible, and it goes for the link again unless a yield is outstanding or the link is up. */
  lemma FailureIsTriedAgain(c: Config, s: State, e: Event, es: seq<Event>)
    requires Safe(s) && BacksOff(c, s, e)
    requires forall x :: x in es ==> !x.WakeUp?
    ensures var u := Run(c, Step(c, s, e), es);
            && (Enabled(c, u, WakeUp) <==> u.now >= s.now + c.interval)
            && (FindsItDown(c, u, WakeUp) ==> Next(c, u, WakeUp).main.TeardownQueued?)
  {
    OneStepIsSafe(c, s, e);
    SleepLasts(c, Step(c, s, e), es);
    var u := Run(c, Step(c, s, e), es);
    if FindsItDown(c, u, WakeUp) {
      FindingTearsDown(c, u);
    }
  }

  // ---- where the back-off and the power-on event stand -------------------------------------

  /** What ends a streak of failures: a success, a check that finds the link up, or a reconnect
      abandoned for a yield. */
  predicate EndsStreak(c: Config, s: State, e: Event) {
    Enabled(c, s, e) &&
    match e
    case SubscribeReturned(ok) => ok
    case WakeUp => Unyielded(s) && s.radio.up
    case Grant => s.queue[0] == Main && s.main.ConnectQueued? && s.yieldUntil.Some?
    case _ => false
  }

  /** Failures backed off since the last end of a streak. */
  function Failures(c: Config, s: State, es: seq<Event>): nat {
    if es == [] then 0
    else
      var mid, last := Run(c, s, es[..|es| - 1]), Last(es);
      if EndsStreak(c, mid, last) then 0
      else Failures(c, s, es[..|es| - 1]) + One(BacksOff(c, mid, last))
  }

  lemma StepStreak(c: Config, s: State, e: Event)
    requires Safe(s)
    ensures |Next(c, s, e).pace.waits|
              == if EndsStreak(c, s, e) then 0 else |s.pace.waits| + One(BacksOff(c, s, e))
  {
    if e.Grant? && Enabled(c, s, e) {
      assert Queued(s, s.queue[0]);
    }
  }

  /** The back-off stands at the step that the failures since the last success have brought it
      to, and at its initial value after a success. */
  lemma {:induction false} BackoffFollowsFailures(c: Config, t0: real, es: seq<Event>)
    ensures var n := Failures(c, Init(c, t0), es);
            && |Run(c, Init(c, t0), es).pace.waits| == n
            && Run(c, Init(c, t0), es).pace.backoff == Planned(c, n)
            && (0.0 < c.backoffInitial <= c.backoffMax ==>
                  Run(c, Init(c, t0), es).pace.backoff == Min(Doubled(c.backoffInitial, n), c.backoffMax))
  {
    RunKeepsPace(c, t0, es);
    if es != [] {
      BackoffFollowsFailures(c, t0, es[..|es| - 1]);
      InitIsSafe(c, t0);
      RunIsSafe(c, Init(c, t0), es[..|es| - 1]);
      StepStreak(c, Run(c, Init(c, t0), es[..|es| - 1]), Last(es));
    }
    if 0.0 < c.backoffInitial <= c.backoffMax {
      PlannedClosedForm(c, Failures(c, Init(c, t0), es));
    }
  }

  /** The adapter was reported on after off, and no attempt was armed since. */
  function PoweredOn(c: Config, s: State, es: seq<Event>): bool {
    es != [] &&
    var front, mid := es[..|es| - 1], Run(c, s, es[..|es| - 1]);
    match Last(es)
    case AdapterReported(on) => PoweredOn(c, s, front) || (on && Reports(front) != [] && !Last(Reports(front)))
    case DisconnectReturned => PoweredOn(c, s, front) && !(Enabled(c, mid, DisconnectReturned) && mid.holder == Some(Main))
    case _ => PoweredOn(c, s, front)
  }

  lemma StepPower(c: Config, s: State, e: Event)
    ensures Next(c, s, e).pace.powerOn ==
              match e
              case AdapterReported(on) => s.pace.powerOn || (on && s.pace.wasOn == Some(false))
              case DisconnectReturned => s.pace.powerOn && !(Enabled(c, s, e) && s.holder == Some(Main))
              case _ => s.pace.powerOn
  {
    match e
    case WakeUp =>
    case Grant =>
    case SubscribeReturned(_) =>
    case _ =>
  }

  /** So a back-off can be cut short exactly when such a report came since its attempt was armed. */
  lemma {:induction false} CutIffPoweredOn(c: Config, t0: real, es: seq<Event>)
    ensures var s := Run(c, Init(c, t0), es);
            && s.pace.powerOn == PoweredOn(c, Init(c, t0), es)
            && (Enabled(c, s, BackoffCut) <==> s.main.BackingOff? && PoweredOn(c, Init(c, t0), es))
  {
    if es != [] {
      var front := es[..|es| - 1];
      CutIffPoweredOn(c, t0, front);
      RunKeepsPace(c, t0, front);
      HistoryIsTrue(c, Init(c, t0), front);
      StepPower(c, Run(c, Init(c, t0), front), Last(es));
    }
  }

  // ---- the link does not underclaim --------------------------------------------------------

  lemma StepSaysSo(c: Config, s: State, e: Event)
    requires Safe(s) && Enabled(c, s, e)
    requires s.radio.up && !s.radio.startFailed && !TakingLink(s) ==> s.link == CONNECTED
    ensures var s' := Step(c, s, e);
            s'.radio.up && !s'.radio.startFailed && !TakingLink(s') ==> s'.link == CONNECTED
  {
    assert Holding(s, Main) <==> s.holder == Some(Main);
    assert s.holder.Some? ==> Holding(s, s.holder.value);
    assert e.Grant? ==> Queued(s, s.queue[0]);
  }

  /** A live link whose reader was started is always reported CONNECTED, from the moment the
      attempt has succeeded. */
  lemma {:induction false} LiveLinkSaysSo(c: Config, t0: real, es: seq<Event>)
    ensures var s := Run(c, Init(c, t0), es);
            s.radio.up && !s.radio.startFailed && !TakingLink(s) ==> s.link == CONNECTED
  {
    if es != [] {
      var front := es[..|es| - 1];
      LiveLinkSaysSo(c, t0, front);
      InitIsSafe(c, t0);
      RunIsSafe(c, Init(c, t0), front);
      var mid := Run(c, Init(c, t0), front);
      if Enabled(c, mid, Last(es)) {
        StepSaysSo(c, mid, Last(es));
      }
    }
  }
}
