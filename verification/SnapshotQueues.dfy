/** The bounded, newest-wins queue between the notification path and each adapter. */
module SnapshotQueues {
  import opened Wrappers

  const CAPACITY: nat := 16

  datatype Op<T> = Put(x: T) | Get

  /** The queue with its history: what was ever enqueued, how much was evicted, and what was
      handed out with the log position it came from. */
  datatype History<T> = History(items: seq<T>, log: seq<T>, evicted: nat, got: seq<T>, positions: seq<nat>)

  function Empty<T>(): History<T> {
    History([], [], 0, [], [])
  }

  /** How many of the oldest items must go before one more fits. */
  function Excess<T>(items: seq<T>): nat {
    if |items| < CAPACITY then 0 else |items| - CAPACITY + 1
  }

  function Enqueued<T>(h: History<T>, x: T): History<T> {
    var excess := Excess(h.items);
    h.(items := h.items[excess..] + [x], log := h.log + [x], evicted := h.evicted + excess)
  }

  /** A `get` on an empty queue waits, so nothing happens until something arrives. */
  function Dequeued<T>(h: History<T>): History<T> {
    if h.items == [] then h
    else h.(items := h.items[1..],
            got := h.got + [h.items[0]],
            positions := h.positions + [if |h.items| <= |h.log| then |h.log| - |h.items| else 0])
  }

  function Apply<T>(h: History<T>, op: Op<T>): History<T> {
    match op
    case Put(x) => Enqueued(h, x)
    case Get => Dequeued(h)
  }

  function Run<T>(ops: seq<Op<T>>): History<T> {
    if ops == [] then Empty() else Apply(Run(ops[..|ops| - 1]), Last(ops))
  }

  /** The snapshots an operation list enqueues. */
  function Puts<T>(ops: seq<Op<T>>): seq<T> {
    if ops == [] then []
    else Puts(ops[..|ops| - 1]) + if Last(ops).Put? then [Last(ops).x] else []
  }

  ghost predicate Consistent<T>(h: History<T>) {
    && |h.items| <= CAPACITY && |h.items| <= |h.log|
    && h.items == h.log[|h.log| - |h.items|..]
    && |h.got| == |h.positions|
    && (forall i :: 0 <= i < |h.got| ==> h.positions[i] < |h.log| - |h.items| && h.got[i] == h.log[h.positions[i]])
    && (forall i, j :: 0 <= i < j < |h.positions| ==> h.positions[i] < h.positions[j])
    && |h.log| == |h.got| + |h.items| + h.evicted
    && (h.evicted == 0 ==> h.log == h.got + h.items)
  }

  lemma EnqueueIsConsistent<T>(h: History<T>, x: T)
    requires Consistent(h)
    ensures Consistent(Enqueued(h, x))
    ensures Last(Enqueued(h, x).items) == x
  {
    var h' := Enqueued(h, x);
    assert h'.items == h'.log[|h'.log| - |h'.items|..];
  }

  lemma DequeueIsConsistent<T>(h: History<T>)
    requires Consistent(h)
    ensures Consistent(Dequeued(h))
  {
    if h.items != [] {
      var h', first := Dequeued(h), |h.log| - |h.items|;
      assert h.items[0] == h.log[first];
      assert h.items == [h.items[0]] + h'.items;
      forall i | 0 <= i < |h'.got| ensures h'.positions[i] < first + 1 && h'.got[i] == h'.log[h'.positions[i]] {
        assert i < |h.got| ==> h.positions[i] < first && h.got[i] == h.log[h.positions[i]];
      }
    }
  }

  /** Over any mix of puts and gets: the queue holds at most 16 items and they are the newest
      ones, in order; consumers see log entries at strictly increasing positions; every entry
      was seen, is queued or was evicted; and without an eviction the queue is a plain FIFO. */
  lemma {:induction false} QueueRefinesLog<T>(ops: seq<Op<T>>)
    ensures Consistent(Run(ops)) && Run(ops).log == Puts(ops)
    ensures ops != [] && Last(ops).Put? ==> Run(ops).items != [] && Last(Run(ops).items) == Last(ops).x
  {
    if ops != [] {
      var front := ops[..|ops| - 1];
      QueueRefinesLog(front);
      match Last(ops)
      case Put(x) => EnqueueIsConsistent(Run(front), x);
      case Get => DequeueIsConsistent(Run(front));
    }
  }

  /** A get hands out the oldest item and evicts nothing. */
  lemma GetTakesTheOldest<T>(h: History<T>)
    requires Consistent(h) && h.items != []
    ensures var h' := Dequeued(h);
            && h'.got == h.got + [h.items[0]] && h'.items == h.items[1..]
            && h'.positions == h.positions + [|h.log| - |h.items|]
            && h'.evicted == h.evicted && h'.log == h.log
  {
  }

  /** What has been evicted: one item for every put on a full queue. */
  function FullPuts<T>(ops: seq<Op<T>>): nat {
    if ops == [] then 0
    else FullPuts(ops[..|ops| - 1]) + if Last(ops).Put? && |Run(ops[..|ops| - 1]).items| == 16 then 1 else 0
  }

  /** Over any mix of puts and gets, evictions are the puts on a full queue, and every get of a
      queue that has anything hands out the oldest item. */
  lemma {:induction false} OnlyFullPutsEvict<T>(ops: seq<Op<T>>)
    ensures Run(ops).evicted == FullPuts(ops) && |Run(ops).items| <= 16
    ensures ops != [] && Last(ops).Get? && Run(ops[..|ops| - 1]).items != [] ==>
              Run(ops).got == Run(ops[..|ops| - 1]).got + [Run(ops[..|ops| - 1]).items[0]]
  {
    QueueRefinesLog(ops);
    if ops != [] {
      OnlyFullPutsEvict(ops[..|ops| - 1]);
      QueueRefinesLog(ops[..|ops| - 1]);
    }
  }

  /** Nothing is evicted before sixteen snapshots are waiting. */
  lemma EvictsOnlyWhenFull<T>(h: History<T>, x: T)
    requires Consistent(h)
    ensures Enqueued(h, x).evicted == h.evicted + if |h.items| == 16 then 1 else 0
  {
  }

  class NewestWins<T> {
    var items: seq<T>
    ghost var history: History<T>

    ghost predicate Valid()
      reads this
    {
      items == history.items && Consistent(history)
    }

    constructor ()
      ensures Valid() && history == Empty()
    {
      items, history := [], Empty();
    }

    /** `put_nowait`; false stands for QueueFull. */
    method PutNowait(x: T) returns (done: bool)
      modifies this`items
      ensures done <==> |old(items)| < CAPACITY
      ensures items == if done then old(items) + [x] else old(items)
    {
      done := |items| < CAPACITY;
      if done {
        items := items + [x];
      }
    }

    /** `get_nowait`; None stands for QueueEmpty. */
    method GetNowait() returns (x: Option<T>)
      modifies this`items
      ensures if old(items) == [] then x == None && items == []
              else x == Some(old(items)[0]) && items == old(items)[1..]
    {
      if items == [] {
        return None;
      }
      x := Some(items[0]);
      items := items[1..];
    }

    /** The producer: try, and evict the oldest until it fits. */
    method Enqueue(x: T)
      requires Valid()
      modifies this
      ensures Valid() && history == Enqueued(old(history), x)
      ensures items == (if |old(items)| == 16 then old(items)[1..] else old(items)) + [x]
    {
      ghost var dropped := 0;
      var done := PutNowait(x);
      while !done
        invariant dropped <= Excess(old(items)) && |old(items)| >= dropped
        invariant done ==> dropped == Excess(old(items)) && items == old(items)[dropped..] + [x]
        invariant !done ==> dropped < Excess(old(items)) && items == old(items)[dropped..]
        invariant history == old(history)
        decreases !done, |items|
      {
        var _ := GetNowait();
        dropped := dropped + 1;
        done := PutNowait(x);
      }
      EnqueueIsConsistent(history, x);
      history := Enqueued(history, x);
    }

    /** The consumer's `get` when something is queued. */
    method Dequeue() returns (x: T)
      requires Valid() && items != []
      modifies this
      ensures Valid() && history == Dequeued(old(history)) && x == Last(history.got)
      ensures x == old(items)[0] && items == old(items)[1..] && history.evicted == old(history).evicted
    {
      x := items[0];
      items := items[1..];
      DequeueIsConsistent(history);
      history := Dequeued(history);
    }
  }
}
