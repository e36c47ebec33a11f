/** The session's cache and the commander's: one callback fills both, and they agree over every
    run of the lease with any number of commands beside it. */
module Caches {
  import opened Wrappers
  import opened DeviceState
  import opened Lease
  import opened LeasePacing
  import opened CommandRules

  datatype Joint = Joint(lease: State, shared: Shared)

  /** An event of the lease, or a piece of some command between two of its awaits. */
  datatype Move = LeaseMove(e: Event) | CommandMove(owner: nat, after: Shared)

  function Begun(c: Config, t0: real): Joint {
    Joint(Init(c, t0), Shared(None, false, None, t0, [], []))
  }

  /** What an event of the lease is to the commander: the clock is the same one, and a published
      reading has come through its `_on_state`. Nothing else concerns it. */
  function Beside(s: Shared, e: Event): Shared {
    match e
    case Tick(dt) => if dt >= 0.0 then s.(now := s.now + dt) else s
    case Published(r) => Deliver(s, r)
    case _ => s
  }

  ghost predicate Possible(j: Joint, m: Move) {
    match m
    case LeaseMove(e) => e.Published? ==> e.r.Faithful()
    case CommandMove(owner, after) => Segment(j.shared, after, owner)
  }

  ghost function JointNext(c: Config, j: Joint, m: Move): Joint {
    if !Possible(j, m) then j
    else
      match m
      case LeaseMove(e) => Joint(Next(c, j.lease, e), Beside(j.shared, e))
      case CommandMove(_, after) => j.(shared := after)
  }

  ghost function JointRun(c: Config, j: Joint, ms: seq<Move>): Joint {
    if ms == [] then j else JointNext(c, JointRun(c, j, ms[..|ms| - 1]), Last(ms))
  }

  /** The commander has nothing to go by: nothing was ever delivered, or a write call has cleared
      its cache since the last delivery. */
  predicate KnowsNothing(s: Shared) {
    s.log == [] || exists k :: 0 <= k < |s.writes| && s.writes[k].seen == |s.log|
  }

  ghost predicate InStep(j: Joint, start: Shared) {
    && Grows(start, j.shared)
    && j.shared.now == j.lease.now && j.shared.log == j.lease.cache.published
    && Holds(j.lease.cache, j.shared.observed)
  }

  lemma BesideGrows(s: Shared, e: Event)
    requires SharedOk(s) && (e.Published? ==> e.r.Faithful())
    ensures Grows(s, Beside(s, e))
  {
    match e
    case Published(r) => DeliverDisturbs(s, r, 0);
    case _ => EnvironmentDisturbs(s, Beside(s, e), 0);
  }

  /** The clock moves with its own event only. */
  lemma ClockMoves(c: Config, s: State, e: Event)
    ensures Next(c, s, e).now == if e.Tick? && e.dt >= 0.0 then s.now + e.dt else s.now
  {
  }

  lemma MoveKeepsStep(c: Config, j: Joint, m: Move, start: Shared)
    requires InStep(j, start) && Possible(j, m)
    ensures InStep(JointNext(c, j, m), start)
  {
    match m
    case LeaseMove(e) =>
      BesideGrows(j.shared, e);
      ClockMoves(c, j.lease, e);
      StepRemembers(c, j.lease, e);
      GrowsIsTransitive(start, j.shared, Beside(j.shared, e));
    case CommandMove(_, after) =>
      GrowsIsTransitive(start, j.shared, after);
  }

  lemma {:induction false} RunKeepsStep(c: Config, t0: real, ms: seq<Move>)
    ensures InStep(JointRun(c, Begun(c, t0), ms), Begun(c, t0).shared)
  {
    if ms == [] {
      StayingDisturbsNobody(Begun(c, t0).shared, 0);
    } else {
      var mid := JointRun(c, Begun(c, t0), ms[..|ms| - 1]);
      RunKeepsStep(c, t0, ms[..|ms| - 1]);
      if Possible(mid, Last(ms)) {
        MoveKeepsStep(c, mid, Last(ms), Begun(c, t0).shared);
      }
    }
  }

  /** Both caches follow the same log of deliveries: the session holds the last one and its time,
      and the commander either the same reading or, exactly when a write call has cleared it
      since or there was none, nothing. */
  lemma CachesAgree(c: Config, t0: real, ms: seq<Move>)
    ensures var j := JointRun(c, Begun(c, t0), ms);
            && j.shared.log == j.lease.cache.published
            && Holds(j.lease.cache, if j.shared.log == [] then None else Some(Last(j.shared.log)))
            && (j.shared.latest.None? <==> KnowsNothing(j.shared))
            && (j.shared.latest.Some? ==> j.shared.latest == j.lease.cache.reading)
  {
    RunKeepsStep(c, t0, ms);
    var start, s := Begun(c, t0).shared, JointRun(c, Begun(c, t0), ms).shared;
    assert Emptied(start, s) <==> exists k :: 0 <= k < |s.writes| && s.writes[k].seen == |s.log|;
  }
}
