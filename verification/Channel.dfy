/** The channel of src/channel/channel.hpp: a queue under a mutex and a semaphore that says "look at the queue".

  The semaphore is released after the mutex is dropped and acquired before it is taken, so the two are updated in
  separate atomic steps. This module holds the shared state, one function for each locked section, the history
  bookkeeping ("which accepted events were flushed") and the class that updates the state in place. */
module Channel {

  /** `Notifier`, with three history fields that the program does not store: `log` is every event ever accepted, in
    order; `marks[i]` says that `log[i]` was discarded by a flush; `dropped` is every event refused because the
    receiver had gone. */
  datatype Core<T> = Core(
    permits: nat,
    queue: seq<T>,
    disconnected: bool,
    log: seq<T>,
    marks: seq<bool>,
    dropped: seq<T>)

  /** `release` leaves any value from 1 to one more than before: this covers a counting semaphore, one that saturates
    at 1, and everything between. */
  predicate CanRelease<T>(c: Core<T>, to: nat) {
    1 <= to <= c.permits + 1
  }

  /** The locked section of `Tx::send`. */
  function Accept<T>(c: Core<T>, v: T): Core<T> {
    if c.disconnected then c.(dropped := c.dropped + [v])
    else c.(queue := c.queue + [v], log := c.log + [v], marks := c.marks + [false])
  }

  /** The locked section of `Tx::flushAndSend`. */
  function FlushAccept<T>(c: Core<T>, v: T): Core<T> {
    if c.disconnected then c.(dropped := c.dropped + [v])
    else c.(queue := [v], log := c.log + [v], marks := MarkLast(c.marks, |c.queue|) + [false])
  }

  function BatchSize<T>(c: Core<T>, max: nat): nat {
    if |c.queue| < max then |c.queue| else max
  }

  /** The locked section of `Rx::tryReceiveLimitedMany`: what it leaves behind. */
  function Taken<T>(c: Core<T>, max: nat): Core<T> {
    c.(queue := c.queue[BatchSize(c, max)..])
  }

  // ---- history: which accepted events were flushed ----

  /** The accepted events that no flush discarded, in order of acceptance. */
  function Kept<T>(log: seq<T>, marks: seq<bool>): seq<T>
    requires |log| == |marks|
  {
    if |log| == 0 then [] else
    var n := |log| - 1;
    Kept(log[..n], marks[..n]) + if marks[n] then [] else [log[n]]
  }

  /** The accepted events that a flush discarded, in order of acceptance. */
  function Discarded<T>(log: seq<T>, marks: seq<bool>): seq<T>
    requires |log| == |marks|
  {
    if |log| == 0 then [] else
    var n := |log| - 1;
    Discarded(log[..n], marks[..n]) + if marks[n] then [log[n]] else []
  }

  /** Marks the last `n` unmarked positions. */
  function MarkLast(marks: seq<bool>, n: nat): (r: seq<bool>)
    ensures |r| == |marks|
    ensures forall i :: 0 <= i < |marks| && marks[i] ==> r[i]
  {
    if n == 0 || |marks| == 0 then marks else
    var m := |marks| - 1;
    MarkLast(marks[..m], if marks[m] then n else n - 1) + [true]
  }

  lemma KeptSnoc<T>(log: seq<T>, marks: seq<bool>, v: T)
    requires |log| == |marks|
    ensures Kept(log + [v], marks + [false]) == Kept(log, marks) + [v]
    ensures Discarded(log + [v], marks + [false]) == Discarded(log, marks)
  {
  }

  /** A flush removes from the surviving events exactly the last `n`, and changes nothing else about them. */
  lemma {:induction false} FlushRemovesExactlyTheLast<T>(log: seq<T>, marks: seq<bool>, n: nat)
    requires |log| == |marks| && n <= |Kept(log, marks)|
    ensures Kept(log, MarkLast(marks, n)) == Kept(log, marks)[..|Kept(log, marks)| - n]
  {
    if n == 0 || |log| == 0 {
    } else {
      var m := |log| - 1;
      var n' := if marks[m] then n else n - 1;
      FlushRemovesExactlyTheLast(log[..m], marks[..m], n');
      assert MarkLast(marks, n)[..m] == MarkLast(marks[..m], n');
    }
  }

  /** Survivors and discards partition the log, occurrence by occurrence. */
  lemma {:induction false} KeptAndDiscarded<T>(log: seq<T>, marks: seq<bool>)
    requires |log| == |marks|
    ensures multiset(log) == multiset(Kept(log, marks)) + multiset(Discarded(log, marks))
  {
    if |log| == 0 {
    } else {
      var m := |log| - 1;
      KeptAndDiscarded(log[..m], marks[..m]);
      SnocCounts(log[..m], log, Kept(log[..m], marks[..m]), Kept(log, marks),
        Discarded(log[..m], marks[..m]), Discarded(log, marks), log[m], marks[m]);
    }
  }

  lemma SnocCounts<T>(a: seq<T>, a': seq<T>, k: seq<T>, k': seq<T>, d: seq<T>, d': seq<T>, x: T, marked: bool)
    requires multiset(a) == multiset(k) + multiset(d)
    requires a' == a + [x] && k' == k + (if marked then [] else [x]) && d' == d + if marked then [x] else []
    ensures multiset(a') == multiset(k') + multiset(d')
  {
  }

  /** What a flush adds to the discarded events is what it takes from the surviving ones. */
  lemma FlushDiscardsExactlyTheLast<T>(log: seq<T>, marks: seq<bool>, n: nat, front: seq<T>, last: seq<T>)
    requires |log| == |marks| && Kept(log, marks) == front + last && n == |last|
    ensures multiset(Discarded(log, MarkLast(marks, n))) == multiset(Discarded(log, marks)) + multiset(last)
  {
    FlushRemovesExactlyTheLast(log, marks, n);
    assert Kept(log, MarkLast(marks, n)) == front;
    KeptAndDiscarded(log, marks);
    KeptAndDiscarded(log, MarkLast(marks, n));
    MovedCounts(multiset(log), front, last, Discarded(log, marks), Discarded(log, MarkLast(marks, n)));
  }

  lemma MovedCounts<T>(all: multiset<T>, front: seq<T>, last: seq<T>, before: seq<T>, after: seq<T>)
    requires all == multiset(front + last) + multiset(before) == multiset(front) + multiset(after)
    ensures multiset(after) == multiset(before) + multiset(last)
  {
    CancelCounts(multiset(front), multiset(before) + multiset(last), multiset(after));
  }

  lemma CancelCounts<T>(a: multiset<T>, b: multiset<T>, c: multiset<T>)
    requires a + b == a + c
    ensures b == c
  {
    forall x ensures b[x] == c[x] {
      assert (a + b)[x] == a[x] + b[x] && (a + c)[x] == a[x] + c[x];
    }
  }

  /** Where the survivor accepted at position `i` stands among the survivors: after exactly the survivors accepted
    before it. So survivors never overtake one another. */
  lemma {:induction false} KeptAt<T>(log: seq<T>, marks: seq<bool>, i: nat)
    requires |log| == |marks| && i < |log| && !marks[i]
    ensures var p := |Kept(log[..i], marks[..i])|;
      p < |Kept(log, marks)| && Kept(log, marks)[p] == log[i] && Kept(log, marks)[..p] == Kept(log[..i], marks[..i])
  {
    var m := |log| - 1;
    if i == m {
    } else {
      KeptAt(log[..m], marks[..m], i);
      assert log[..m][..i] == log[..i] && marks[..m][..i] == marks[..i];
    }
  }

  // ---- the object the threads share ----

  /** `Notifier` with the operations of `Rx` and `Tx` on it. Each method that takes the mutex in the program is one
    atomic step here; `Release` and `TryAcquire` are the semaphore steps on either side of it. */
  class Notifier<T> {
    var notify: nat
    var queue: seq<T>
    var rxDisconnected: bool

    ghost var log: seq<T>
    ghost var marks: seq<bool>
    ghost var dropped: seq<T>

    ghost function State(): Core<T>
      reads this
    {
      Core(notify, queue, rxDisconnected, log, marks, dropped)
    }

    /** `MakeChannel`: the receiver is built together with the notifier, so the channel starts connected. */
    constructor ()
      ensures State() == Core(0, [], false, [], [], [])
    {
      notify, queue, rxDisconnected := 0, [], false;
      log, marks, dropped := [], [], [];
    }

    /** `m_notify.release()`, also `Rx::wakeImmediately` and the last act of `~Tx`. */
    method Release()
      modifies this
      ensures State() == old(State()).(permits := notify) && CanRelease(old(State()), notify)
      ensures 1 <= notify <= old(notify) + 1
    {
      var to: nat :| 1 <= to <= notify + 1;
      notify := to;
    }

    /** `~Rx`. */
    method Disconnect()
      modifies this
      ensures State() == old(State()).(disconnected := true)
      ensures rxDisconnected && queue == old(queue) && notify == old(notify)
    {
      rxDisconnected := true;
    }

    /** The block of `Tx::send` that holds the mutex. */
    method SendSection(v: T) returns (accepted: bool)
      modifies this
      ensures State() == Accept(old(State()), v) && accepted == !old(rxDisconnected)
      ensures queue == (if accepted then old(queue) + [v] else old(queue)) && notify == old(notify)
      ensures log == (if accepted then old(log) + [v] else old(log))
      ensures dropped == (if accepted then old(dropped) else old(dropped) + [v])
      ensures rxDisconnected == old(rxDisconnected)
    {
      if rxDisconnected {
        dropped := dropped + [v];
        return false;
      }
      queue := queue + [v];
      log, marks := log + [v], marks + [false];
      return true;
    }

    /** The block of `Tx::flushAndSend` that holds the mutex. */
    method FlushSection(v: T) returns (accepted: bool)
      modifies this
      ensures State() == FlushAccept(old(State()), v) && accepted == !old(rxDisconnected)
      ensures queue == (if accepted then [v] else old(queue)) && notify == old(notify)
      ensures log == (if accepted then old(log) + [v] else old(log))
      ensures dropped == (if accepted then old(dropped) else old(dropped) + [v])
      ensures rxDisconnected == old(rxDisconnected)
    {
      if rxDisconnected {
        dropped := dropped + [v];
        return false;
      }
      marks := MarkLast(marks, |queue|) + [false];
      queue := [];
      queue := queue + [v];
      log := log + [v];
      return true;
    }

    /** `try_acquire_for`; the wait may give up (`expired`) even when a permit is there. */
    method TryAcquire(expired: bool) returns (acquired: bool)
      modifies this
      ensures acquired == (!expired && old(notify) > 0)
      ensures State() == if acquired then old(State()).(permits := old(notify) - 1) else old(State())
      ensures notify == (if acquired then old(notify) - 1 else old(notify)) && queue == old(queue)
    {
      acquired := !expired && notify > 0;
      if acquired { notify := notify - 1; }
    }

    /** The block of `Rx::tryReceiveLimitedMany` that holds the mutex: steal a prefix one by one, erase it from the
      queue, say how many are left. */
    method TakeSection(max: nat) returns (res: seq<T>, leftInQueue: nat)
      modifies this
      ensures State() == Taken(old(State()), max)
      ensures |res| <= max && res + queue == old(queue) && leftInQueue == |queue|
      ensures |res| < max ==> leftInQueue == 0
      ensures notify == old(notify) && rxDisconnected == old(rxDisconnected) && dropped == old(dropped)
    {
      var queueSize := |queue|;
      var nEventsForThisPass := if queueSize < max then queueSize else max;
      leftInQueue := if queueSize > nEventsForThisPass then queueSize - nEventsForThisPass else 0;
      res := [];
      var stealEnd := 0;
      while stealEnd < nEventsForThisPass
        invariant stealEnd <= nEventsForThisPass && res == queue[..stealEnd]
      {
        res := res + [queue[stealEnd]];
        stealEnd := stealEnd + 1;
      }
      queue := queue[stealEnd..];
    }

    /** The block of `Rx::tryReceiveMany` that holds the mutex: swap the whole queue out. */
    method SwapSection() returns (res: seq<T>)
      modifies this
      ensures res == old(queue) && State() == Taken(old(State()), |old(queue)|) && queue == []
      ensures notify == old(notify) && rxDisconnected == old(rxDisconnected) && dropped == old(dropped)
    {
      res := [];
      res, queue := queue, res;
    }

    /** `Tx::send` when nothing else runs between its two steps: a refused event releases no permit. */
    method Send(v: T) returns (accepted: bool)
      modifies this
      ensures accepted == !old(rxDisconnected)
      ensures State() == Accept(old(State()), v).(permits := notify)
      ensures queue == if accepted then old(queue) + [v] else old(queue)
      ensures if accepted then CanRelease(old(State()), notify) && 1 <= notify <= old(notify) + 1
              else notify == old(notify)
    {
      accepted := SendSection(v);
      if accepted { Release(); }
    }

    /** `Tx::flushAndSend` when nothing else runs between its two steps. */
    method FlushAndSend(v: T) returns (accepted: bool)
      modifies this
      ensures accepted == !old(rxDisconnected)
      ensures State() == FlushAccept(old(State()), v).(permits := notify)
      ensures queue == if accepted then [v] else old(queue)
      ensures if accepted then CanRelease(old(State()), notify) && 1 <= notify <= old(notify) + 1
              else notify == old(notify)
    {
      accepted := FlushSection(v);
      if accepted { Release(); }
    }

    /** `Rx::tryReceiveLimitedMany` when nothing else runs between its two steps: without a permit the queue is not
      even looked at. */
    method TryReceiveLimitedMany(expired: bool, max: nat) returns (res: seq<T>, leftInQueue: nat)
      modifies this
      ensures expired || old(notify) == 0 ==> State() == old(State()) && res == [] && leftInQueue == 0
      ensures !expired && old(notify) > 0 ==>
        State() == Taken(old(State()), max).(permits := old(notify) - 1) && notify == old(notify) - 1 &&
        res + queue == old(queue) && leftInQueue == |queue| && |res| == BatchSize(old(State()), max)
    {
      res, leftInQueue := [], 0;
      var acquired := TryAcquire(expired);
      if acquired {
        res, leftInQueue := TakeSection(max);
      }
    }

    /** `Rx::tryReceiveMany` when nothing else runs between its two steps. */
    method TryReceiveMany(expired: bool) returns (res: seq<T>)
      modifies this
      ensures expired || old(notify) == 0 ==> State() == old(State()) && res == []
      ensures !expired && old(notify) > 0 ==>
        res == old(queue) && State() == Taken(old(State()), |res|).(permits := old(notify) - 1) &&
        queue == [] && notify == old(notify) - 1
    {
      res := [];
      var acquired := TryAcquire(expired);
      if acquired {
        res := SwapSection();
      }
    }
  }
}
