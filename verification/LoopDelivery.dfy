/** Every event that a thread's channel accepts gets somewhere: in every weakly fair run it is dispatched, or a `Stop`
  flushes it while it is still queued, or the loop leaves first. */
module LoopDelivery {
  import opened Events
  import opened Channel
  import C = ChannelRuns
  import opened EventLoop
  import opened Fairness
  import opened ChannelLiveness
  import LL = LoopLiveness

  // ---- the steps of the thread as steps of its channel ----

  /** The step flushes the event at `p`. */
  predicate FlushesAt(s: Loop, a: Act, p: nat)
    requires Enabled(s, a)
  {
    OnChannel(a) && Discards(s.sys, ChannelAct(a), p)
  }

  lemma ChannelStep(s: Loop, a: Act)
    requires Enabled(s, a)
    ensures OnChannel(a) ==> C.Enabled(s.sys, ChannelAct(a)) && C.Positive(ChannelAct(a))
    ensures !OnChannel(a) ==> Next(s, a).sys == s.sys
    ensures OnChannel(a) && !ExitsNow(s, a) ==> Next(s, a).sys == C.Next(s.sys, ChannelAct(a))
    ensures ExitsNow(s, a) ==> OnChannel(a)
    ensures ExitsNow(s, a) ==>
      var t := C.Next(s.sys, ChannelAct(a)); C.Enabled(t, C.Extra(a.to)) && Next(s, a).sys == C.Next(t, C.Extra(a.to))
  {
  }

  lemma StepDescends(s: Loop, a: Act, p: nat)
    requires Enabled(s, a) && Pending(s.sys, p)
    ensures LessOrEqual(Rank(Next(s, a).sys, p), Rank(s.sys, p))
    ensures OnChannel(a) && OfReceiver(ChannelAct(a)) && !a.Timeout? ==>
      Less(Rank(Next(s, a).sys, p), Rank(s.sys, p))
    ensures Asleep(s.sys) && a.Release? ==> Less(Rank(Next(s, a).sys, p), Rank(s.sys, p))
  {
    hide Enabled, Next, C.Next, C.Enabled, Rank, Pending;
    ChannelStep(s, a);
    if OnChannel(a) {
      var t := C.Next(s.sys, ChannelAct(a));
      if OfReceiver(ChannelAct(a)) {
        ReceiverDescends(s.sys, ChannelAct(a), p);
      } else {
        CallerDescends(s.sys, ChannelAct(a), p);
      }
      if ExitsNow(s, a) {
        CallerDescends(t, C.Extra(a.to), p);
        LessIsTransitive(Rank(Next(s, a).sys, p), Rank(t, p), Rank(s.sys, p));
      }
    }
  }

  lemma StepKeepsPosition(s: Loop, a: Act, p: nat)
    requires Enabled(s, a) && p < |C.Stream(s.sys)| && !FlushesAt(s, a, p)
    ensures p < |C.Stream(Next(s, a).sys)| && C.Stream(Next(s, a).sys)[p] == C.Stream(s.sys)[p]
  {
    hide Enabled, Next, C.Next, C.Enabled, C.Stream;
    ChannelStep(s, a);
    if OnChannel(a) {
      KeepsPosition(s.sys, ChannelAct(a), p);
      if ExitsNow(s, a) {
        var t := C.Next(s.sys, ChannelAct(a));
        ExtraFlushesNothing(t, a.to, p);
        KeepsPosition(t, C.Extra(a.to), p);
      }
    }
  }

  lemma ExtraFlushesNothing(k: C.Sys<Event>, to: nat, p: nat)
    requires C.Enabled(k, C.Extra(to))
    ensures !Discards(k, C.Extra(to), p)
  {
  }

  // ---- somebody can always bring it nearer ----

  /** The thread waits for a permit and has not been told to stop. */
  predicate Sleeps(s: Loop) {
    Asleep(s.sys) && !s.stopRequested
  }

  predicate Ready(s: Loop, p: LL.Party) {
    match p
    case LoopThread => !Sleeps(s)
    case Caller(c) => Sleeps(s) && c in s.sys.senders && s.sys.senders[c].Releasing?
  }

  lemma SomebodyIsReady(s: Loop, p: nat)
    requires C.Inv(s.sys) && Pending(s.sys, p)
    ensures exists q :: Ready(s, q)
  {
    if Sleeps(s) {
      SleeperIsOwed(s.sys, p);
      var c :| c in s.sys.senders && s.sys.senders[c].Releasing?;
      assert Ready(s, LL.Caller(c));
    } else {
      assert Ready(s, LL.LoopThread);
    }
  }

  lemma ReadyCanStep(s: Loop, q: LL.Party)
    requires !s.sys.rx.Dropped? && Ready(s, q)
    ensures LL.CanStep(s, q)
  {
    var a := Release(0, 1);
    match q {
      case Caller(c) => a := Release(c, 1);
      case LoopThread =>
        match s.sys.rx {
          case Idle => a := if s.stopRequested then Leave else Acquire;
          case Holding => a := Take;
          case Passing(rest, _) => a := if |rest| > 0 then Dispatch(1) else EndPass(1);
        }
    }
    assert LL.TakenBy(q, a) && Enabled(s, a);
  }

  /** What a thread that is ready does lowers the rank. */
  lemma MovesAreOnChannel(s: Loop, a: Act, q: LL.Party)
    requires Enabled(s, a) && LL.InOrder(s) && !s.sys.rx.Dropped? && Ready(s, q) && LL.TakenBy(q, a)
    ensures (OnChannel(a) && OfReceiver(ChannelAct(a)) && !a.Timeout?) || (Asleep(s.sys) && a.Release?)
  {
  }

  lemma ReadyStays(s: Loop, a: Act, q: LL.Party)
    requires Enabled(s, a) && Ready(s, q) && !LL.TakenBy(LL.LoopThread, a) && !LL.TakenBy(q, a)
    ensures Ready(Next(s, a), q) || (Asleep(s.sys) && a.Release?)
  {
    hide Enabled, Next;
    LL.OtherStep(s, a);
  }

  lemma LoopStepsAreOnChannel(s: Loop, a: Act)
    requires Enabled(s, a) && LL.InOrder(s) && !s.sys.rx.Dropped? && LL.TakenBy(LL.LoopThread, a)
    ensures OnChannel(a) && OfReceiver(ChannelAct(a)) && !a.Timeout?
  {
  }

  lemma ReadyAdvances(s: Loop, a: Act, p: nat, q: LL.Party)
    requires Enabled(s, a) && LL.InOrder(s) && Pending(s.sys, p) && Ready(s, q)
    ensures LL.TakenBy(q, a) || !Ready(Next(s, a), q) ==> Less(Rank(Next(s, a).sys, p), Rank(s.sys, p))
  {
    StepDescends(s, a, p);
    hide Enabled, Next, Rank, Ready, LL.InOrder, LL.TakenBy, Asleep, C.Stream;
    if LL.TakenBy(LL.LoopThread, a) {
      LoopStepsAreOnChannel(s, a);
    } else if LL.TakenBy(q, a) {
      MovesAreOnChannel(s, a, q);
    } else {
      ReadyStays(s, a, q);
    }
  }

  // ---- infinite runs ----

  /** What became of the event `e` at position `p` by time `m`. */
  ghost predicate Settled(tr: nat -> Loop, acts: nat -> Act, m: nat, p: nat, e: Event) {
    var k := tr(m).sys;
    || (p < |k.delivered| && k.delivered[p] == e)
    || k.rx.Dropped?
    || (Enabled(tr(m), acts(m)) && FlushesAt(tr(m), acts(m), p))
  }

  ghost predicate NeverSettled(tr: nat -> Loop, acts: nat -> Act, n: nat, p: nat, e: Event) {
    forall m: nat :: n <= m ==> !Settled(tr, acts, m, p, e)
  }

  lemma {:induction false} PendingFrom(tr: nat -> Loop, acts: nat -> Act, n: nat, p: nat, i: nat)
    requires LL.IsRun(tr, acts) && n <= i && p < |C.Stream(tr(n).sys)|
    requires NeverSettled(tr, acts, n, p, C.Stream(tr(n).sys)[p])
    ensures Pending(tr(i).sys, p) && C.Stream(tr(i).sys)[p] == C.Stream(tr(n).sys)[p]
    decreases i
  {
    hide Enabled, Next;
    assert !Settled(tr, acts, i, p, C.Stream(tr(n).sys)[p]);
    if i == n {
    } else {
      PendingFrom(tr, acts, n, p, i - 1);
      assert LL.StepAt(tr, acts, i - 1);
      assert !Settled(tr, acts, i - 1, p, C.Stream(tr(n).sys)[p]);
      StepKeepsPosition(tr(i - 1), acts(i - 1), p);
    }
  }

  lemma AdvancesAt(tr: nat -> Loop, acts: nat -> Act, p: nat, i: nat)
    requires LL.IsRun(tr, acts) && Pending(tr(i).sys, p)
    ensures LessOrEqual(Rank(tr(i + 1).sys, p), Rank(tr(i).sys, p))
    ensures exists q :: Ready(tr(i), q)
    ensures forall q :: Ready(tr(i), q) ==>
      LL.CanStep(tr(i), q) &&
      (LL.TakenBy(q, acts(i)) || !Ready(tr(i + 1), q) ==> Less(Rank(tr(i + 1).sys, p), Rank(tr(i).sys, p)))
  {
    LL.InvAt(tr, acts, i);
    assert LL.StepAt(tr, acts, i);
    hide Enabled, Next, Rank, Ready, Less, C.Inv, LL.InOrder, LL.IsRun, LL.CanStep, LL.TakenBy, C.Stream;
    hide SendersInv, ExitInv;
    StepDescends(tr(i), acts(i), p);
    SomebodyIsReady(tr(i), p);
    forall q | Ready(tr(i), q)
      ensures LL.CanStep(tr(i), q)
      ensures LL.TakenBy(q, acts(i)) || !Ready(tr(i + 1), q) ==> Less(Rank(tr(i + 1).sys, p), Rank(tr(i).sys, p))
    {
      ReadyCanStep(tr(i), q);
      ReadyAdvances(tr(i), acts(i), p, q);
    }
  }

  ghost function Ranks(tr: nat -> Loop, p: nat): nat -> Measure {
    (i: nat) => Rank(tr(i).sys, p)
  }

  ghost function ReadyIn(tr: nat -> Loop): (nat, LL.Party) -> bool {
    (i: nat, q: LL.Party) => Ready(tr(i), q)
  }

  ghost function SettledIn(tr: nat -> Loop, acts: nat -> Act, p: nat, e: Event): nat -> bool {
    (i: nat) => Settled(tr, acts, i, p, e)
  }

  /** As long as it is not settled every step counts. */
  lemma UnsettledAdvances(tr: nat -> Loop, acts: nat -> Act, n: nat, p: nat)
    requires LL.IsRun(tr, acts) && p < |C.Stream(tr(n).sys)|
    requires NeverSettled(tr, acts, n, p, C.Stream(tr(n).sys)[p])
    ensures AdvancesFrom(Ranks(tr, p), SettledIn(tr, acts, p, C.Stream(tr(n).sys)[p]), ReadyIn(tr), LL.Can(tr),
                         LL.Moves(acts), n)
  {
    hide Enabled, Next, Rank, Ready, Less, C.Inv, LL.IsRun, LL.CanStep, LL.TakenBy, C.Stream, NeverSettled, Settled;
    forall i: nat | n <= i
      ensures Advances(Ranks(tr, p), SettledIn(tr, acts, p, C.Stream(tr(n).sys)[p]), ReadyIn(tr), LL.Can(tr),
                       LL.Moves(acts), i)
    {
      PendingFrom(tr, acts, n, p, i);
      AdvancesAt(tr, acts, p, i);
      var q :| Ready(tr(i), q);
      assert ReadyIn(tr)(i, q);
    }
  }

  /** No accepted event is left waiting for ever. At time `n` an event stands at position `p` of the stream (an accepted
    event that has not been flushed has such a position). In every weakly fair infinite run it is dispatched, as the
    `p`-th event, or a `Stop` flushes it from the queue, or the loop leaves before it comes to that. */
  lemma EveryEventIsSettled(tr: nat -> Loop, acts: nat -> Act, n: nat, p: nat)
    requires LL.IsRun(tr, acts) && WeaklyFair(LL.Can(tr), LL.Moves(acts)) && p < |C.Stream(tr(n).sys)|
    ensures exists m: nat :: n <= m && Settled(tr, acts, m, p, C.Stream(tr(n).sys)[p])
  {
    hide LL.IsRun, WeaklyFair, Settled, C.Stream, AdvancesFrom;
    var e := C.Stream(tr(n).sys)[p];
    if forall m: nat :: n <= m ==> !Settled(tr, acts, m, p, e) {
      UnsettledAdvances(tr, acts, n, p);
      LeadsTo(Ranks(tr, p), SettledIn(tr, acts, p, e), ReadyIn(tr), LL.Can(tr), LL.Moves(acts), n);
    }
  }
}
