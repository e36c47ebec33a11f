/** How often the lease may try to reconnect, and what the caches remember. */
module LeasePacing {
  import opened Wrappers
  import opened DeviceState
  import opened Lease
  import opened LeaseSafety

  /** The back-off after `k` failures of a streak. */
  function Planned(c: Config, k: nat): real {
    if k == 0 then c.backoffInitial else Min(Planned(c, k - 1) * 2.0, c.backoffMax)
  }

  function PlannedSum(c: Config, n: nat): real {
    if n == 0 then 0.0 else PlannedSum(c, n - 1) + Planned(c, n - 1)
  }

  function CutCount(ws: seq<Wait>): nat {
    if ws == [] then 0 else CutCount(ws[..|ws| - 1]) + if Last(ws).cut then 1 else 0
  }

  function TookSum(ws: seq<Wait>): real {
    if ws == [] then 0.0 else TookSum(ws[..|ws| - 1]) + Last(ws).took
  }

  /** The adapter's off-to-on transitions in a list of reports; the first report is none. */
  function EdgeCount(reports: seq<bool>): nat {
    if |reports| < 2 then 0
    else EdgeCount(reports[..|reports| - 1])
         + if Last(reports) && !reports[|reports| - 2] then 1 else 0
  }

  /** The power-on event has been armed for the attempt under way. */
  predicate Armed(s: State) {
    !s.booting && (s.main.ConnectQueued? || s.main.Connecting? || s.main.Subscribing? || s.main.BackingOff?)
  }

  function Pending(s: State): nat {
    if Armed(s) && s.pace.powerOn then 1 else 0
  }

  ghost predicate WaitsOk(c: Config, ws: seq<Wait>) {
    forall k :: 0 <= k < |ws| ==>
      ws[k].planned == Planned(c, k) && ws[k].took >= 0.0 && (!ws[k].cut ==> ws[k].took >= ws[k].planned)
  }

  ghost predicate PaceOk(c: Config, s: State) {
    var p := s.pace;
    && p.backoff == Planned(c, |p.waits|)
    && WaitsOk(c, p.waits)
    && CutCount(p.waits) + Pending(s) <= p.streakEdges
    && p.cuts + Pending(s) <= EdgeCount(p.reports)
    && p.wasOn == (if p.reports == [] then None else Some(Last(p.reports)))
    && (s.main.BackingOff? ==> s.main.since <= s.now)
    && p.streakAt + TookSum(p.waits) <= (if s.main.BackingOff? then s.main.since else s.now)
    && BootOk(s)
  }

  /** `start` is over once its connect is. */
  predicate BootOk(s: State) {
    s.booting ==> s.main.ConnectQueued? || s.main.Connecting? || s.main.Subscribing?
  }

  lemma BackoffKeepsPace(c: Config, s: State, cut: bool)
    requires PaceOk(c, s) && s.main.BackingOff?
    requires cut ==> s.pace.powerOn
    requires !cut ==> s.now >= s.main.since + s.pace.backoff
    ensures PaceOk(c, BackoffDone(c, s, cut))
  {
    var ws := BackoffDone(c, s, cut).pace.waits;
    assert ws[..|ws| - 1] == s.pace.waits;
  }

  lemma WatchKeepsPace(c: Config, s: State, on: bool)
    requires PaceOk(c, s)
    ensures PaceOk(c, s.(pace := Watched(s.pace, on)))
  {
    var reports := Watched(s.pace, on).reports;
    assert reports[..|reports| - 1] == s.pace.reports;
  }

  /** The step arms nothing and begins no wait in the past. */
  predicate Unpaced(s: State, s': State) {
    && s'.pace == s.pace && s.now <= s'.now
    && (Armed(s') && s.pace.powerOn ==> Armed(s))
    && (s'.main.BackingOff? ==> s'.main == s.main || (!s.main.BackingOff? && s'.main.since == s.now))
    && BootOk(s')
  }

  lemma UnpacedKeepsPace(c: Config, s: State, s': State)
    requires PaceOk(c, s) && Unpaced(s, s')
    ensures PaceOk(c, s')
  {
  }

  lemma EndStreakKeepsPace(c: Config, s: State, s': State)
    requires PaceOk(c, s) && s'.pace == EndStreak(c, s).pace && s'.now == s.now
    requires s'.main.Sleeping? && !s'.booting
    ensures PaceOk(c, s')
  {
  }

  lemma UnpacedStep(c: Config, s: State, e: Event)
    requires LockOk(s) && BootOk(s) && Enabled(c, s, e) && Step(c, s, e).pace == s.pace
    requires !e.BackoffExpired? && !e.BackoffCut? && !(e.DisconnectReturned? && s.holder == Some(Main))
    ensures Unpaced(s, Step(c, s, e))
  {
    assert e.Grant? ==> Queued(s, s.queue[0]);
  }

  /** The event is cleared as the attempt is armed. */
  lemma ArmingKeepsPace(c: Config, s: State)
    requires PaceOk(c, s) && Enabled(c, s, DisconnectReturned) && s.holder == Some(Main)
    ensures PaceOk(c, Step(c, s, DisconnectReturned))
  {
  }

  lemma StepKeepsPace(c: Config, s: State, e: Event)
    requires LockOk(s) && PaceOk(c, s) && Enabled(c, s, e)
    ensures PaceOk(c, Step(c, s, e))
  {
    if e.BackoffExpired? || e.BackoffCut? {
      BackoffKeepsPace(c, s, e.BackoffCut?);
    } else if e.AdapterReported? {
      WatchKeepsPace(c, s, e.on);
    } else if e.DisconnectReturned? && s.holder == Some(Main) {
      ArmingKeepsPace(c, s);
    } else if Step(c, s, e).pace == s.pace {
      UnpacedStep(c, s, e);
      UnpacedKeepsPace(c, s, Step(c, s, e));
    } else {
      EndStreakKeepsPace(c, s, Step(c, s, e));
    }
  }

  lemma {:induction false} RunKeepsPace(c: Config, t0: real, es: seq<Event>)
    ensures PaceOk(c, Run(c, Init(c, t0), es))
  {
    if es != [] {
      var front := es[..|es| - 1];
      RunKeepsPace(c, t0, front);
      InitIsSafe(c, t0);
      RunIsSafe(c, Init(c, t0), front);
      var mid := Run(c, Init(c, t0), front);
      if Enabled(c, mid, Last(es)) {
        StepKeepsPace(c, mid, Last(es));
      }
    }
  }

  // ---- the closed form and the rate bound --------------------------------------------------

  /** `a * 2^k`. */
  function Doubled(a: real, k: nat): real {
    if k == 0 then a else 2.0 * Doubled(a, k - 1)
  }

  lemma {:induction false} PlannedClosedForm(c: Config, k: nat)
    requires 0.0 < c.backoffInitial <= c.backoffMax
    ensures Planned(c, k) == Min(Doubled(c.backoffInitial, k), c.backoffMax)
  {
    if k > 0 {
      PlannedClosedForm(c, k - 1);
    }
  }

  lemma {:induction false} PlannedGrows(c: Config, i: nat, j: nat)
    requires 0.0 < c.backoffInitial <= c.backoffMax && i <= j
    ensures 0.0 < Planned(c, i) <= Planned(c, j) <= c.backoffMax
    decreases j
  {
    if j > 0 {
      PlannedGrows(c, if i == j then i - 1 else i, j - 1);
    }
  }

  /** Waits that were not cut short last at least as long as the smallest planned ones. */
  lemma {:induction false} WaitsTakeTime(c: Config, ws: seq<Wait>)
    requires 0.0 < c.backoffInitial <= c.backoffMax && WaitsOk(c, ws)
    ensures CutCount(ws) <= |ws|
    ensures TookSum(ws) >= PlannedSum(c, |ws| - CutCount(ws))
  {
    if ws != [] {
      var front := ws[..|ws| - 1];
      WaitsTakeTime(c, front);
      PlannedGrows(c, |front| - CutCount(front), |front|);
    }
  }

  lemma {:induction false} PlannedSumGrows(c: Config, m: nat, n: nat)
    requires 0.0 < c.backoffInitial <= c.backoffMax && m <= n
    ensures PlannedSum(c, m) <= PlannedSum(c, n)
  {
    if m < n {
      PlannedSumGrows(c, m, n - 1);
      PlannedGrows(c, n - 1, n - 1);
    }
  }

  /** The k-th wait of a streak of failures was planned as initial * 2^k capped at the maximum,
      so the waits grow; waits cut short never outnumber the power-on edges of the streak; and
      n failures with e edges have taken at least the sum of the n - e smallest waits, which
      are the first ones. */
  ghost predicate RateBounded(c: Config, s: State) {
    var ws, edges := s.pace.waits, s.pace.streakEdges;
    && (forall k :: 0 <= k < |ws| ==> ws[k].planned == Min(Doubled(c.backoffInitial, k), c.backoffMax))
    && (forall j, k :: 0 <= j <= k < |ws| ==> ws[j].planned <= ws[k].planned)
    && CutCount(ws) <= edges
    && (edges <= |ws| ==> s.now - s.pace.streakAt >= PlannedSum(c, |ws| - edges))
  }

  lemma WaitsFollowPlan(c: Config, ws: seq<Wait>, k: nat)
    requires 0.0 < c.backoffInitial <= c.backoffMax && WaitsOk(c, ws) && k < |ws|
    ensures ws[k].planned == Min(Doubled(c.backoffInitial, k), c.backoffMax)
  {
    PlannedClosedForm(c, k);
  }

  lemma WaitsGrow(c: Config, ws: seq<Wait>, j: nat, k: nat)
    requires 0.0 < c.backoffInitial <= c.backoffMax && WaitsOk(c, ws) && j <= k < |ws|
    ensures ws[j].planned <= ws[k].planned
  {
    PlannedGrows(c, j, k);
  }

  lemma StreakTakesTime(c: Config, s: State)
    requires 0.0 < c.backoffInitial <= c.backoffMax && PaceOk(c, s)
    ensures s.pace.streakEdges <= |s.pace.waits| ==>
              s.now - s.pace.streakAt >= PlannedSum(c, |s.pace.waits| - s.pace.streakEdges)
  {
    var ws, edges := s.pace.waits, s.pace.streakEdges;
    WaitsTakeTime(c, ws);
    if edges <= |ws| {
      PlannedSumGrows(c, |ws| - edges, |ws| - CutCount(ws));
    }
  }

  lemma PaceBoundsRate(c: Config, s: State)
    requires 0.0 < c.backoffInitial <= c.backoffMax && PaceOk(c, s)
    ensures RateBounded(c, s)
  {
    var ws := s.pace.waits;
    forall k | 0 <= k < |ws| ensures ws[k].planned == Min(Doubled(c.backoffInitial, k), c.backoffMax) {
      WaitsFollowPlan(c, ws, k);
    }
    forall j, k | 0 <= j <= k < |ws| ensures ws[j].planned <= ws[k].planned {
      WaitsGrow(c, ws, j, k);
    }
    StreakTakesTime(c, s);
  }

  /** The reconnect rate, in every reachable state. */
  lemma ReconnectRateBound(c: Config, t0: real, es: seq<Event>)
    requires 0.0 < c.backoffInitial <= c.backoffMax
    ensures RateBounded(c, Run(c, Init(c, t0), es))
  {
    RunKeepsPace(c, t0, es);
    PaceBoundsRate(c, Run(c, Init(c, t0), es));
  }

  /** What the waits that were not cut short were planned to take. */
  function UncutSum(ws: seq<Wait>): real {
    if ws == [] then 0.0 else UncutSum(ws[..|ws| - 1]) + if Last(ws).cut then 0.0 else Last(ws).planned
  }

  lemma {:induction false} UncutWaitsTakeTime(c: Config, ws: seq<Wait>)
    requires WaitsOk(c, ws)
    ensures TookSum(ws) >= UncutSum(ws)
  {
    if ws != [] {
      UncutWaitsTakeTime(c, ws[..|ws| - 1]);
    }
  }

  /** Whatever the configuration: no wait that was not cut short is ever skimped. */
  lemma UncutWaitsAreWaited(c: Config, t0: real, es: seq<Event>)
    ensures var s := Run(c, Init(c, t0), es); s.now - s.pace.streakAt >= UncutSum(s.pace.waits)
  {
    RunKeepsPace(c, t0, es);
    UncutWaitsTakeTime(c, Run(c, Init(c, t0), es).pace.waits);
  }

  /** With an initial back-off above the maximum only the first wait is that long. */
  lemma {:induction false} PlannedOverMaximum(c: Config, k: nat)
    requires 0.0 < c.backoffMax < c.backoffInitial
    ensures Planned(c, k) == if k == 0 then c.backoffInitial else c.backoffMax
  {
    if k > 0 {
      PlannedOverMaximum(c, k - 1);
    }
  }

  /** Whatever the configuration: over a whole run early attempts never outnumber the adapter's
      observed off-to-on transitions. */
  lemma EarlyAttemptsNeedEdges(c: Config, t0: real, es: seq<Event>)
    ensures var p := Run(c, Init(c, t0), es).pace; p.cuts <= EdgeCount(p.reports)
  {
    RunKeepsPace(c, t0, es);
  }

  /** The reports a list of events contains. */
  function Reports(es: seq<Event>): seq<bool> {
    if es == [] then []
    else Reports(es[..|es| - 1]) + if Last(es).AdapterReported? then [Last(es).on] else []
  }

  /** How often a back-off was really cut short along a run. */
  function EarlyAttempts(c: Config, s: State, es: seq<Event>): nat {
    if es == [] then 0
    else EarlyAttempts(c, s, es[..|es| - 1])
         + if Last(es).BackoffCut? && Enabled(c, Run(c, s, es[..|es| - 1]), Last(es)) then 1 else 0
  }

  lemma StepHistory(c: Config, s: State, e: Event)
    ensures Next(c, s, e).pace.reports == s.pace.reports + if e.AdapterReported? then [e.on] else []
    ensures Next(c, s, e).pace.cuts == s.pace.cuts + if e.BackoffCut? && Enabled(c, s, e) then 1 else 0
  {
    match e
    case WakeUp =>
    case Grant =>
    case DisconnectReturned =>
    case SubscribeReturned(_) =>
    case _ =>
  }

  lemma {:induction false} HistoryIsTrue(c: Config, s: State, es: seq<Event>)
    requires s.pace.reports == [] && s.pace.cuts == 0
    ensures Run(c, s, es).pace.reports == Reports(es)
    ensures Run(c, s, es).pace.cuts == EarlyAttempts(c, s, es)
  {
    if es != [] {
      HistoryIsTrue(c, s, es[..|es| - 1]);
      StepHistory(c, Run(c, s, es[..|es| - 1]), Last(es));
    }
  }

  /** The same, stated of the events alone. */
  lemma EarlyAttemptsBounded(c: Config, t0: real, es: seq<Event>)
    ensures EarlyAttempts(c, Init(c, t0), es) <= EdgeCount(Reports(es))
  {
    HistoryIsTrue(c, Init(c, t0), es);
    EarlyAttemptsNeedEdges(c, t0, es);
  }

  // ---- the caches --------------------------------------------------------------------------

  /** The last reading an event list publishes, and when the clock stood where. */
  function LastPublished(c: Config, s: State, es: seq<Event>): Option<Delivery> {
    if es == [] then None
    else if Last(es).Published? then Some(Delivery(Last(es).r, Run(c, s, es[..|es| - 1]).now))
    else LastPublished(c, s, es[..|es| - 1])
  }

  /** A reading and its time are kept as they were delivered. */
  predicate Holds(c: Cache, last: Option<Delivery>) {
    match last
    case None => c.reading.None? && c.readingAt.None?
    case Some(d) => c.reading == Some(d.reading) && c.readingAt == Some(d.at)
  }

  ghost predicate Remembers(c: Cache, last: Option<Delivery>) {
    && Holds(c, last)
    && (c.published == [] <==> last.None?)
    && (last.Some? ==> Last(c.published) == last.value)
  }

  lemma StepRemembers(c: Config, s: State, e: Event)
    ensures Next(c, s, e).cache == if !e.Published? then s.cache
                                   else Cache(Some(e.r), Some(s.now), s.cache.published + [Delivery(e.r, s.now)])
  {
  }

  /** The cached reading and its timestamp are those of the last publication, so no link
      change, drop, yield or teardown alters either. */
  lemma {:induction false} CacheIsLastPublished(c: Config, t0: real, es: seq<Event>)
    ensures Remembers(Run(c, Init(c, t0), es).cache, LastPublished(c, Init(c, t0), es))
  {
    if es != [] {
      var front := es[..|es| - 1];
      CacheIsLastPublished(c, t0, front);
      StepRemembers(c, Run(c, Init(c, t0), front), Last(es));
    }
  }
}
