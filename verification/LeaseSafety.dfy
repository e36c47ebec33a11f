/** Who may hold the link: mutual exclusion, one subscription, and yields that always win. */
module LeaseSafety {
  import opened Wrappers
  import opened Lease

  predicate NoDuplicates(q: seq<Task>) {
    forall i, j :: 0 <= i < j < |q| ==> q[i] != q[j]
  }

  /** The lock and its queue agree with where every task is. */
  ghost predicate LockOk(s: State) {
    && NoDuplicates(s.queue)
    && (forall t: Task :: Holding(s, t) <==> s.holder == Some(t))
    && (forall t: Task :: Queued(s, t) <==> t in s.queue)
  }

  /** What is held agrees with who is doing what to it. */
  ghost predicate RadioOk(s: State) {
    var r := s.radio;
    && (r.up ==> r.hasClient)
    && (!r.hasClient ==> r.subs == 0 && !r.startFailed)
    && r.subs <= 1
    && (r.running ==> r.subs == 1 && r.hasClient)
    && (AwaitingStop(s) ==> !r.running)
    && (AwaitingDisconnect(s) ==> !r.running && !r.hasClient)
    && (s.main.Unstarted? || s.main.ConnectQueued? || s.main.BackingOff? || TakingLink(s) ==>
          !r.running && r.subs == 0)
    && (s.main.Connecting? && r.hasClient ==> r.startFailed)
    && (s.main.Subscribing? ==> r.hasClient && !r.startFailed)
    && (r.hasClient && !TakingLink(s) && !AwaitingStop(s) ==> (r.running <==> !r.startFailed))
  }

  /** A yield that nobody is still carrying out has been carried out. Only a session started
      under it says something else than YIELDED. */
  ghost predicate LeaseOk(s: State) {
    s.yieldUntil.Some? && s.yielders == map[] ==>
      && !s.radio.hasClient && !TakingLink(s)
      && s.link == (if s.startedYielded then CONNECTING else YIELDED)
  }

  /** The supervisor is between finding the link down and the end of its attempt. */
  predicate Reconnecting(s: State) {
    !s.booting && !s.main.Unstarted? && !s.main.Sleeping?
  }

  /** CONNECTED is claimed only at rest, of a client that is held or is just being yielded; a
      reconnect shows as LOST, a boot as CONNECTING and a failed boot as STOPPED, unless a yield
      has completed since. */
  ghost predicate LinkOk(s: State) {
    && (s.link == CONNECTED ==> s.main.Sleeping? && (s.radio.hasClient || AwaitingDisconnect(s)))
    && (Reconnecting(s) ==> s.link == LOST || s.link == YIELDED)
    && (s.booting ==> s.main.ConnectQueued? || TakingLink(s))
    && (s.booting ==> s.link == CONNECTING || s.link == YIELDED)
    && (s.main.Unstarted? ==> s.link == STOPPED || s.link == YIELDED)
  }

  ghost predicate Safe(s: State) {
    LockOk(s) && RadioOk(s) && LeaseOk(s) && LinkOk(s)
  }

  // ---- the lock ----------------------------------------------------------------------------

  lemma DequeueKeepsLock(s: State, s': State, head: Task)
    requires LockOk(s) && s.holder.None? && s.queue != [] && head == s.queue[0] && s'.queue == s.queue[1..]
    requires !Queued(s', head) && s'.holder == if Holding(s', head) then Some(head) else None
    requires forall t: Task :: t != head ==> (Holding(s', t) <==> Holding(s, t)) && (Queued(s', t) <==> Queued(s, t))
    ensures LockOk(s')
  {
    assert s.queue == [head] + s'.queue;
    forall t: Task
      ensures Holding(s', t) <==> s'.holder == Some(t)
      ensures Queued(s', t) <==> t in s'.queue
    {
      assert t in s.queue <==> t == head || t in s'.queue;
      assert Holding(s, t) <==> s.holder == Some(t);
      assert Queued(s, t) <==> t in s.queue;
    }
  }

  lemma GrantKeepsLock(c: Config, s: State)
    requires LockOk(s) && Enabled(c, s, Grant)
    ensures LockOk(Step(c, s, Grant))
  {
    assert Queued(s, s.queue[0]);
    DequeueKeepsLock(s, Step(c, s, Grant), s.queue[0]);
  }

  lemma EnqueueKeepsLock(s: State, s': State, newcomer: Task)
    requires LockOk(s) && newcomer !in s.queue
    requires s'.queue == s.queue + [newcomer] && Queued(s', newcomer) && !Holding(s', newcomer)
    requires s'.holder == if s.holder == Some(newcomer) then None else s.holder
    requires forall t: Task :: t != newcomer ==> (Holding(s', t) <==> Holding(s, t)) && (Queued(s', t) <==> Queued(s, t))
    ensures LockOk(s')
  {
    forall t: Task
      ensures Holding(s', t) <==> s'.holder == Some(t)
      ensures Queued(s', t) <==> t in s'.queue
    {
      assert t in s'.queue <==> t in s.queue || t == newcomer;
      if t != newcomer {
        assert Holding(s, t) <==> s.holder == Some(t);
        assert Queued(s, t) <==> t in s.queue;
      }
    }
  }

  /** The steps that leave every task where it was with respect to the lock. */
  predicate Bystander(e: Event) {
    e.Tick? || e.BackoffExpired? || e.BackoffCut? || e.Resumed? || e.Dropped? || e.AdapterReported? || e.Published?
  }

  lemma QueueingKeepsLock(c: Config, s: State, e: Event)
    requires LockOk(s) && Enabled(c, s, e)
    requires e.Start? || e.WakeUp? || e.YieldCalled?
    ensures LockOk(Step(c, s, e))
  {
    var s' := Step(c, s, e);
    var newcomer := if e.YieldCalled? then Yielder(e.id) else Main;
    assert !Queued(s, newcomer) && !Holding(s, newcomer);
    if s'.queue == s.queue + [newcomer] {
      EnqueueKeepsLock(s, s', newcomer);
    } else {
      SameTasks(s, s');
    }
  }

  lemma HolderKeepsLock(c: Config, s: State, e: Event)
    requires LockOk(s) && Enabled(c, s, e)
    requires e.StopReturned? || e.DisconnectReturned? || e.ConnectReturned? || e.SubscribeReturned?
    ensures LockOk(Step(c, s, e))
  {
    var s' := Step(c, s, e);
    assert Holding(s, Main) <==> s.holder == Some(Main);
    var owner := s.holder.value;
    if s'.holder == s.holder {
      SameTasks(s, s');
    } else if s'.queue == s.queue {
      ReleaseKeepsLock(s, s', owner);
    } else {
      assert !Queued(s, owner);
      EnqueueKeepsLock(s, s', owner);
    }
  }

  lemma StepKeepsLock(c: Config, s: State, e: Event)
    requires LockOk(s) && Enabled(c, s, e)
    ensures LockOk(Step(c, s, e))
  {
    if e.Grant? {
      GrantKeepsLock(c, s);
    } else if e.Start? || e.WakeUp? || e.YieldCalled? {
      QueueingKeepsLock(c, s, e);
    } else if Bystander(e) {
      SameTasks(s, Step(c, s, e));
    } else {
      HolderKeepsLock(c, s, e);
    }
  }

  lemma SameTasks(s: State, s': State)
    requires LockOk(s) && s'.holder == s.holder && s'.queue == s.queue
    requires forall t: Task :: (Holding(s', t) <==> Holding(s, t)) && (Queued(s', t) <==> Queued(s, t))
    ensures LockOk(s')
  {
  }

  lemma ReleaseKeepsLock(s: State, s': State, owner: Task)
    requires LockOk(s) && s.holder == Some(owner) && s'.holder == None && s'.queue == s.queue
    requires !Holding(s', owner) && !Queued(s', owner) && !Queued(s, owner)
    requires forall t: Task :: t != owner ==> (Holding(s', t) <==> Holding(s, t)) && (Queued(s', t) <==> Queued(s, t))
    ensures LockOk(s')
  {
    forall t: Task
      ensures Holding(s', t) <==> s'.holder == Some(t)
      ensures Queued(s', t) <==> t in s'.queue
    {
      assert Holding(s, t) <==> s.holder == Some(t);
      assert Queued(s, t) <==> t in s.queue;
    }
  }

  // ---- the radio and the lease -------------------------------------------------------------

  lemma GrantKeepsRadio(c: Config, s: State)
    requires LockOk(s) && RadioOk(s) && Enabled(c, s, Grant)
    ensures RadioOk(Step(c, s, Grant))
  {
    assert Holding(s, Main) <==> s.holder == Some(Main);
    assert Queued(s, s.queue[0]);
  }

  lemma HolderKeepsRadio(c: Config, s: State, e: Event)
    requires LockOk(s) && RadioOk(s) && Enabled(c, s, e)
    requires e.StopReturned? || e.DisconnectReturned? || e.ConnectReturned? || e.SubscribeReturned?
    ensures RadioOk(Step(c, s, e))
  {
    assert Holding(s, Main) <==> s.holder == Some(Main);
  }

  lemma StepKeepsRadio(c: Config, s: State, e: Event)
    requires LockOk(s) && RadioOk(s) && Enabled(c, s, e)
    ensures RadioOk(Step(c, s, e))
  {
    if e.Grant? {
      GrantKeepsRadio(c, s);
    } else if e.StopReturned? || e.DisconnectReturned? || e.ConnectReturned? || e.SubscribeReturned? {
      HolderKeepsRadio(c, s, e);
    } else {
      assert Holding(s, Main) <==> s.holder == Some(Main);
    }
  }

  lemma StepKeepsLease(c: Config, s: State, e: Event)
    requires Safe(s) && Enabled(c, s, e)
    ensures LeaseOk(Step(c, s, e))
  {
    var s' := Step(c, s, e);
    assert Holding(s, Main) <==> s.holder == Some(Main);
    if e.Grant? {
      assert Queued(s, s.queue[0]);
      assert s.queue[0].Yielder? ==> s.queue[0].id in s'.yielders;
    } else if e.YieldCalled? {
      assert e.id in s'.yielders;
    } else if e.StopReturned? {
      assert s.holder.value.Yielder? ==> s.holder.value.id in s'.yielders;
    }
  }

  lemma StepKeepsLink(c: Config, s: State, e: Event)
    requires Safe(s) && Enabled(c, s, e)
    ensures LinkOk(Step(c, s, e))
  {
    assert Holding(s, Main) <==> s.holder == Some(Main);
    assert e.Grant? ==> Queued(s, s.queue[0]);
  }

  lemma {:induction false} RunIsSafe(c: Config, s: State, es: seq<Event>)
    requires Safe(s)
    ensures Safe(Run(c, s, es))
  {
    if es != [] {
      RunIsSafe(c, s, es[..|es| - 1]);
      var mid := Run(c, s, es[..|es| - 1]);
      if Enabled(c, mid, Last(es)) {
        StepKeepsLock(c, mid, Last(es));
        StepKeepsRadio(c, mid, Last(es));
        StepKeepsLease(c, mid, Last(es));
        StepKeepsLink(c, mid, Last(es));
      }
    }
  }

  lemma InitIsSafe(c: Config, now: real)
    ensures Safe(Init(c, now))
  {
  }
}
