/**
 The connection lease as a transition system.

 One step is one piece of code between two `await`s. Every `await` is a point where any other
 task may run, so the runs below include every interleaving of the supervisor, any number of
 overlapping yields and resumes, link drops, adapter reports and published readings. A lock
 that is free is taken by queueing and being granted next, which asyncio does in one go.
 */
module Lease {
  import opened Wrappers
  import opened DeviceState

  datatype Config = Config(interval: real, backoffInitial: real, backoffMax: real)

  datatype LinkState = STOPPED | CONNECTING | CONNECTED | YIELDED | LOST

  datatype Task = Main | Yielder(id: nat)

  /** Where the session's own task is: first `start`, then `_supervise`. */
  datatype MainPc =
    | Unstarted
    | Sleeping(wakeAt: real)
    | TeardownQueued
    | Stopping
    | Disconnecting
    | ConnectQueued
    | Connecting
    | Subscribing
    | BackingOff(since: real)

  /** Where one `yield_link` call is inside its teardown. */
  datatype YieldPc = YieldQueued | YieldStopping | YieldDisconnecting

  /** One finished back-off: what was planned, whether a power-on cut it, how long it took. */
  datatype Wait = Wait(planned: real, cut: bool, took: real)

  /** What the transport and the reader hold. `subs` counts status subscriptions, and
      `startFailed` records that `commander.start` failed on the client now held. */
  datatype Radio = Radio(hasClient: bool, up: bool, subs: nat, running: bool, startFailed: bool)

  /** The supervisor's pacing, with the history of the current streak of failed reconnects. */
  datatype Pace = Pace(
    backoff: real,
    powerOn: bool,
    wasOn: Option<bool>,
    waits: seq<Wait>,
    streakAt: real,
    streakEdges: nat,
    cuts: nat,
    reports: seq<bool>)

  /** The last reading and its time, with the log of publications. */
  datatype Cache = Cache(reading: Option<Reading>, readingAt: Option<real>, published: seq<Delivery>)

  /** `startedYielded` records that the session was last started under an outstanding yield, and
      that no yield has completed since. */
  datatype State = State(
    now: real,
    link: LinkState,
    yieldUntil: Option<real>,
    radio: Radio,
    holder: Option<Task>,
    queue: seq<Task>,
    main: MainPc,
    booting: bool,
    startedYielded: bool,
    yielders: map<nat, YieldPc>,
    pace: Pace,
    cache: Cache)

  datatype Event =
    | Tick(dt: real)
    | Start
    | WakeUp
    | Grant
    | StopReturned
    | DisconnectReturned
    | ConnectReturned(ok: bool)
    | SubscribeReturned(ok: bool)
    | BackoffExpired
    | BackoffCut
    | YieldCalled(id: nat, seconds: real)
    | Resumed
    | Dropped
    | AdapterReported(on: bool)
    | Published(r: Reading)

  function Init(c: Config, now: real): State {
    State(
      now := now,
      link := STOPPED,
      yieldUntil := None,
      radio := Radio(false, false, 0, false, false),
      holder := None,
      queue := [],
      main := Unstarted,
      booting := false,
      startedYielded := false,
      yielders := map[],
      pace := Pace(c.backoffInitial, false, None, [], now, 0, 0, []),
      cache := Cache(None, None, []))
  }

  // ---- who holds the lock, and who waits for it ------------------------------------------

  predicate Holding(s: State, t: Task) {
    match t
    case Main => s.main.Stopping? || s.main.Disconnecting? || s.main.Connecting? || s.main.Subscribing?
    case Yielder(i) => i in s.yielders && (s.yielders[i].YieldStopping? || s.yielders[i].YieldDisconnecting?)
  }

  predicate Queued(s: State, t: Task) {
    match t
    case Main => s.main.TeardownQueued? || s.main.ConnectQueued?
    case Yielder(i) => i in s.yielders && s.yielders[i].YieldQueued?
  }

  /** The code between `async with self._link_lock` and its end, for taking the link. */
  predicate TakingLink(s: State) {
    s.main.Connecting? || s.main.Subscribing?
  }

  predicate AwaitingStop(s: State) {
    match s.holder
    case Some(Main) => s.main.Stopping?
    case Some(Yielder(i)) => i in s.yielders && s.yielders[i].YieldStopping?
    case None => false
  }

  predicate AwaitingDisconnect(s: State) {
    match s.holder
    case Some(Main) => s.main.Disconnecting?
    case Some(Yielder(i)) => i in s.yielders && s.yielders[i].YieldDisconnecting?
    case None => false
  }

  // ---- the steps ----------------------------------------------------------------------------

  predicate Enabled(c: Config, s: State, e: Event) {
    match e
    case Tick(dt) => dt >= 0.0
    case Start => s.main.Unstarted?
    case WakeUp => s.main.Sleeping? && s.now >= s.main.wakeAt
    case Grant => s.holder.None? && s.queue != []
    case StopReturned => AwaitingStop(s)
    case DisconnectReturned => AwaitingDisconnect(s)
    case ConnectReturned(_) => s.main.Connecting?
    case SubscribeReturned(_) => s.main.Subscribing?
    case BackoffExpired => s.main.BackingOff? && s.now >= s.main.since + s.pace.backoff
    case BackoffCut => s.main.BackingOff? && s.pace.powerOn
    case YieldCalled(id, seconds) => seconds > 0.0 && id !in s.yielders
    case Resumed => true
    case Dropped => true
    case AdapterReported(_) => true
    case Published(_) => true
  }

  function Enqueue(s: State, t: Task): State {
    s.(queue := s.queue + [t])
  }

  /** `backoff = self._backoff_initial`, which ends a streak of failed reconnects. */
  function EndStreak(c: Config, s: State): State {
    s.(pace := s.pace.(backoff := c.backoffInitial, waits := [], streakAt := s.now, streakEdges := 0))
  }

  function Resleep(c: Config, s: State): State {
    s.(main := Sleeping(s.now + c.interval), booting := false)
  }

  function Started(s: State): State {
    Enqueue(s.(link := CONNECTING, booting := true, startedYielded := s.yieldUntil.Some?, main := ConnectQueued), Main)
  }

  /** One supervision check, from the end of the sleep to the next await. */
  function Checked(c: Config, s: State): State {
    if s.yieldUntil.Some? && s.now < s.yieldUntil.value then
      Resleep(c, s)
    else
      var s1 := s.(yieldUntil := None);
      if s1.radio.up then
        Resleep(c, EndStreak(c, s1.(link := CONNECTED)))
      else
        Enqueue(s1.(link := LOST, main := TeardownQueued), Main)
  }

  /** `commander.stop()` marks the reader stopped before it awaits anything. */
  function ReaderStopped(s: State): State {
    s.(radio := s.radio.(running := false))
  }

  function Granted(c: Config, s: State): State
    requires s.queue != []
  {
    var s1 := s.(holder := Some(s.queue[0]), queue := s.queue[1..]);
    match s.queue[0]
    case Yielder(i) =>
      ReaderStopped(s1.(yielders := s1.yielders[i := YieldStopping]))
    case Main =>
      if s.main.TeardownQueued? then
        ReaderStopped(s1.(main := Stopping))
      else if s.yieldUntil.Some? then
        // Abandoning a reconnect: the link has been yielded.
        Resleep(c, EndStreak(c, s1.(holder := None)))
      else
        s1.(main := Connecting)
  }

  /** `transport.disconnect()` forgets its client before it awaits. */
  function StopDone(s: State): State
    requires s.holder.Some?
  {
    var s1 := s.(radio := Radio(false, false, 0, s.radio.running, false));
    match s.holder.value
    case Main => s1.(main := Disconnecting)
    case Yielder(i) => s1.(yielders := s1.yielders[i := YieldDisconnecting])
  }

  function DisconnectDone(s: State): State
    requires s.holder.Some?
  {
    match s.holder.value
    case Main =>
      // The power-on event is armed before the attempt.
      Enqueue(s.(holder := None, pace := s.pace.(powerOn := false), main := ConnectQueued), Main)
    case Yielder(i) =>
      s.(holder := None, link := YIELDED, startedYielded := false, yielders := s.yielders - {i})
  }

  /** `_connect` raised: at boot the error is raised to the caller, later it is backed off. */
  function ConnectFailed(s: State): State {
    if s.booting then
      s.(holder := None, link := STOPPED, main := Unstarted, booting := false)
    else
      s.(holder := None, main := BackingOff(s.now))
  }

  function ConnectDone(s: State, ok: bool): State {
    if ok then
      s.(radio := s.radio.(hasClient := true, up := true, startFailed := false), main := Subscribing)
    else
      ConnectFailed(s)
  }

  function SubscribeDone(c: Config, s: State, ok: bool): State {
    if ok then
      var s1 := s.(radio := s.radio.(subs := s.radio.subs + 1, running := true));
      Resleep(c, EndStreak(c, s1.(link := CONNECTED, holder := None)))
    else
      ConnectFailed(s.(radio := s.radio.(startFailed := true)))
  }

  function Min(a: real, b: real): real {
    if b < a then b else a
  }

  /** The wait after a failed reconnect is over, and the back-off grows whatever ended it. */
  function BackoffDone(c: Config, s: State, cut: bool): State
    requires s.main.BackingOff?
  {
    var w := Wait(s.pace.backoff, cut, s.now - s.main.since);
    Resleep(c, s.(pace := s.pace.(
      backoff := Min(s.pace.backoff * 2.0, c.backoffMax),
      waits := s.pace.waits + [w],
      cuts := s.pace.cuts + (if cut then 1 else 0))))
  }

  /** The deadline is set before anything is awaited. */
  function YieldBegun(s: State, id: nat, seconds: real): State {
    Enqueue(s.(yieldUntil := Some(s.now + seconds), yielders := s.yielders[id := YieldQueued]), Yielder(id))
  }

  /** `_watch_adapter`: the first report only seeds the baseline. */
  function Watched(p: Pace, on: bool): Pace {
    var edge := on && p.wasOn == Some(false);
    p.(powerOn := p.powerOn || edge,
       wasOn := Some(on),
       streakEdges := p.streakEdges + (if edge then 1 else 0),
       reports := p.reports + [on])
  }

  function Step(c: Config, s: State, e: Event): State
    requires Enabled(c, s, e)
  {
    match e
    case Tick(dt) => s.(now := s.now + dt)
    case Start => Started(s)
    case WakeUp => Checked(c, s)
    case Grant => Granted(c, s)
    case StopReturned => StopDone(s)
    case DisconnectReturned => DisconnectDone(s)
    case ConnectReturned(ok) => ConnectDone(s, ok)
    case SubscribeReturned(ok) => SubscribeDone(c, s, ok)
    case BackoffExpired => BackoffDone(c, s, false)
    case BackoffCut => BackoffDone(c, s, true)
    case YieldCalled(id, seconds) => YieldBegun(s, id, seconds)
    case Resumed => s.(yieldUntil := None)
    case Dropped => s.(radio := s.radio.(up := false))
    case AdapterReported(on) => s.(pace := Watched(s.pace, on))
    case Published(r) =>
      s.(cache := Cache(Some(r), Some(s.now), s.cache.published + [Delivery(r, s.now)]))
  }

  /** An event that cannot happen in a state leaves it alone, so every event list is a run. */
  function Next(c: Config, s: State, e: Event): State {
    if Enabled(c, s, e) then Step(c, s, e) else s
  }

  function Run(c: Config, s: State, es: seq<Event>): State {
    if es == [] then s else Next(c, Run(c, s, es[..|es| - 1]), Last(es))
  }
}
