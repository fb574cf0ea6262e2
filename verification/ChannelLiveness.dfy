/** What brings a waiting event nearer to the receiver. `p` is a position in the stream of a channel: delivered, then in
  flight, then queued. Every step of the receiver lowers the rank of a position it has not reached, no step raises it, and
  somebody can always lower it. Which runs are fair is left to the users of the channel. */
module ChannelLiveness {
  import opened Channel
  import C = ChannelRuns
  import opened Fairness

  /** The event at `p` is in flight or queued, and the receiver is there. */
  predicate Pending<T>(k: C.Sys<T>, p: nat) {
    |k.delivered| <= p < |C.Stream(k)| && !k.rx.Dropped?
  }

  predicate Asleep<T>(k: C.Sys<T>) {
    k.rx.Idle? && k.core.permits == 0
  }

  /** Steps of the receiver before it delivers the next event. */
  function Place<T>(k: C.Sys<T>): nat {
    match k.rx
    case Passing(rest, _) => if |rest| > 0 then 0 else 4
    case Idle => if k.core.permits == 0 then 3 else 2
    case Holding => 1
    case Dropped => 0
  }

  function Rank<T>(k: C.Sys<T>, p: nat): Measure {
    Measure(0, if p < |k.delivered| then 0 else p + 1 - |k.delivered|, Place(k), 0)
  }

  predicate OfReceiver<T>(a: C.Act<T>) {
    a.Acquire? || a.Take? || a.Deliver? || a.EndPass? || a.Disconnect?
  }

  /** A flush takes effect while the event at `p` is still queued. */
  predicate Discards<T>(k: C.Sys<T>, a: C.Act<T>, p: nat)
    requires C.Enabled(k, a)
  {
    C.Flushes(k, a) && C.Claimed(k) <= p
  }

  /** A receiver that waits for a permit while something is pending is owed one by a caller. */
  lemma SleeperIsOwed<T>(k: C.Sys<T>, p: nat)
    requires C.Inv(k) && Pending(k, p) && Asleep(k)
    ensures exists c :: c in k.senders && k.senders[c].Releasing?
  {
    assert C.NoLostWakeUp(k) && C.Fifo(k);
  }

  lemma ReceiverDescends<T>(k: C.Sys<T>, a: C.Act<T>, p: nat)
    requires Pending(k, p) && C.Enabled(k, a) && C.Positive(a) && OfReceiver(a)
    ensures Less(Rank(C.Next(k, a), p), Rank(k, p))
  {
  }

  lemma CallerDescends<T>(k: C.Sys<T>, a: C.Act<T>, p: nat)
    requires C.Enabled(k, a) && !OfReceiver(a)
    ensures LessOrEqual(Rank(C.Next(k, a), p), Rank(k, p))
    ensures Asleep(k) && (a.Release? || a.Extra?) ==> Less(Rank(C.Next(k, a), p), Rank(k, p))
    ensures C.Next(k, a).rx == k.rx && C.Next(k, a).delivered == k.delivered
  {
  }

  /** An event keeps its position unless a flush discards it. */
  lemma KeepsPosition<T>(k: C.Sys<T>, a: C.Act<T>, p: nat)
    requires C.Enabled(k, a) && p < |C.Stream(k)| && !Discards(k, a, p)
    ensures p < |C.Stream(C.Next(k, a))| && C.Stream(C.Next(k, a))[p] == C.Stream(k)[p]
  {
    C.StreamAfter(k, a);
    if C.Flushes(k, a) {
      assert C.Stream(k)[p] == (k.delivered + C.InFlight(k))[p];
    }
  }

  /** A caller that has yet to release goes on owing it until it does. */
  lemma OwesUntilRelease<T>(k: C.Sys<T>, a: C.Act<T>, c: nat)
    requires C.Enabled(k, a) && c in k.senders && k.senders[c].Releasing? && !(a.Release? && a.c == c)
    ensures c in C.Next(k, a).senders && C.Next(k, a).senders[c].Releasing?
  {
  }
}
