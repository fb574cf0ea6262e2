/** Every accepted timer request is handled: in every weakly fair run of threads, request channel, registry and kernel, for
  as long as the timer thread's receiver is there. */
module RequestLiveness {
  import opened Events
  import opened Channel
  import C = ChannelRuns
  import E = EventLoop
  import R = Registry
  import opened TimerWorld
  import opened Fairness
  import opened ChannelLiveness

  /** The timer thread, handling requests, or a thread inside a request. */
  datatype Party = Handling | Asking(t: nat)

  predicate TakenBy(p: Party, a: Act) {
    match p
    case Handling => a.Process? || (a.OnRequests? && (a.chan.Acquire? || a.chan.Take? || a.chan.EndPass?))
    case Asking(t) => a.OnRequests? && (a.chan.Section? || a.chan.Release?) && a.chan.c == t
  }

  ghost predicate CanStep(w: World, p: Party) {
    exists a :: TakenBy(p, a) && Enabled(w, a)
  }

  predicate Ready(k: C.Sys<Request>, p: Party) {
    match p
    case Handling => !Asleep(k)
    case Asking(t) => Asleep(k) && t in k.senders && k.senders[t].Releasing?
  }

  // ---- the steps of the world as steps of the request channel ----

  lemma StepOfChannel(w: World, a: Act, p: nat)
    requires RequestsInv(w) && Enabled(w, a) && Pending(w.req, p)
    ensures LessOrEqual(Rank(Next(w, a).req, p), Rank(w.req, p))
    ensures TakenBy(Handling, a) ==> Less(Rank(Next(w, a).req, p), Rank(w.req, p))
    ensures Asleep(w.req) && a.OnRequests? && a.chan.Release? ==> Less(Rank(Next(w, a).req, p), Rank(w.req, p))
    ensures p < |C.Stream(Next(w, a).req)| && C.Stream(Next(w, a).req)[p] == C.Stream(w.req)[p]
  {
    hide Next, Enabled, C.Enabled, Rank, C.Stream, Pending;
    RequestStepIs(w, a);
    var r := RequestStep(w, a);
    if |r| > 0 {
      NothingIsFlushed(w, r[0], p);
      HandlingSteps(w, a);
      PositionKept(w.req, r[0], p);
      if OfReceiver(r[0]) {
        ReceiverDescends(w.req, r[0], p);
      } else {
        CallerDescends(w.req, r[0], p);
      }
    } else {
      AlwaysOnChannel(w, a);
      InStream(w.req, p);
    }
  }

  lemma InStream(k: C.Sys<Request>, p: nat)
    requires Pending(k, p)
    ensures p < |C.Stream(k)|
  {
  }

  lemma PositionKept(k: C.Sys<Request>, a: C.Act<Request>, p: nat)
    requires C.Enabled(k, a) && Pending(k, p) && !Discards(k, a, p)
    ensures p < |C.Stream(k)|
    ensures p < |C.Stream(C.Next(k, a))| && C.Stream(C.Next(k, a))[p] == C.Stream(k)[p]
  {
    KeepsPosition(k, a, p);
  }

  lemma NothingIsFlushed(w: World, a: C.Act<Request>, p: nat)
    requires RequestsInv(w) && C.Enabled(w.req, a)
    ensures !Discards(w.req, a, p)
  {
    hide C.Inv;
  }

  lemma HandlingSteps(w: World, a: Act)
    requires Enabled(w, a) && |RequestStep(w, a)| > 0
    ensures TakenBy(Handling, a) ==> OfReceiver(RequestStep(w, a)[0])
    ensures a.OnRequests? && a.chan.Release? ==> RequestStep(w, a)[0].Release?
  {
    hide E.Next, E.Enabled, R.Next, R.Enabled, C.Enabled, C.Next;
  }

  lemma AlwaysOnChannel(w: World, a: Act)
    requires Enabled(w, a) && |RequestStep(w, a)| == 0
    ensures !TakenBy(Handling, a) && !a.OnRequests?
  {
    hide E.Next, E.Enabled, R.Next, R.Enabled, C.Enabled, C.Next;
  }

  lemma SomebodyIsReady(k: C.Sys<Request>, p: nat)
    requires C.Inv(k) && Pending(k, p)
    ensures exists q :: Ready(k, q)
  {
    if Asleep(k) {
      SleeperIsOwed(k, p);
      var c :| c in k.senders && k.senders[c].Releasing?;
      assert Ready(k, Asking(c));
    } else {
      assert Ready(k, Handling);
    }
  }

  lemma HandlingCanStep(w: World)
    requires Inv(w) && !w.req.rx.Dropped? && !Asleep(w.req)
    ensures CanStep(w, Handling)
  {
    hide Inv, CanStep;
    var k := w.req;
    if k.rx.Passing? && |k.rx.rest| > 0 {
      ProcessCanStep(w);
    } else {
      ChannelCanStep(w, if k.rx.Idle? then C.Acquire
                        else if k.rx.Holding? then C.Take(|k.core.queue| + 1) else C.EndPass(1));
    }
  }

  lemma ProcessCanStep(w: World)
    requires Inv(w) && C.Enabled(w.req, C.Deliver)
    ensures CanStep(w, Handling)
  {
    PendingAddsAreFresh(w, true);
    hide Inv, Enabled;
    assert TakenBy(Handling, Process(true)) && Enabled(w, Process(true));
  }

  lemma ChannelCanStep(w: World, chan: C.Act<Request>)
    requires C.Enabled(w.req, chan) && PlainChannelAct(w.req.core.queue, chan)
    requires chan.Acquire? || chan.Take? || chan.EndPass?
    ensures CanStep(w, Handling)
  {
    hide C.Enabled;
    assert TakenBy(Handling, OnRequests(chan)) && Enabled(w, OnRequests(chan));
  }

  lemma ReadyCanStep(w: World, q: Party)
    requires Inv(w) && !w.req.rx.Dropped? && Ready(w.req, q)
    ensures CanStep(w, q)
  {
    if q.Handling? {
      HandlingCanStep(w);
    } else {
      var a := OnRequests(C.Release(q.t, 1));
      assert TakenBy(q, a) && Enabled(w, a);
    }
  }

  /** A party that is ready and does not move stays ready, unless the sleeper is woken. */
  lemma ReadyStays(k: C.Sys<Request>, a: C.Act<Request>, q: Party)
    requires C.Enabled(k, a) && !OfReceiver(a) && Ready(k, q) && !(q.Asking? && a.Release? && a.c == q.t)
    ensures Ready(C.Next(k, a), q) || (Asleep(k) && (a.Release? || a.Extra?))
  {
    if q.Asking? {
      OwesUntilRelease(k, a, q.t);
    }
  }

  lemma ReadyAdvances(w: World, a: Act, p: nat, q: Party)
    requires RequestsInv(w) && Enabled(w, a) && Pending(w.req, p) && Ready(w.req, q)
    ensures TakenBy(q, a) || !Ready(Next(w, a).req, q) ==> Less(Rank(Next(w, a).req, p), Rank(w.req, p))
  {
    StepOfChannel(w, a, p);
    RequestStepIs(w, a);
    AskingReleases(w, a, q);
    var r := RequestStep(w, a);
    hide Next, Enabled, C.Enabled, C.Next, Rank, Pending, C.Stream, Asleep;
    if |r| > 0 {
      OthersStep(w, a, q);
      if OfReceiver(r[0]) {
        ReceiverDescends(w.req, r[0], p);
      } else {
        CallerDescends(w.req, r[0], p);
        if !TakenBy(q, a) {
          ReadyStays(w.req, r[0], q);
        }
      }
    } else {
      AlwaysOnChannel(w, a);
    }
  }

  lemma AskingReleases(w: World, a: Act, q: Party)
    requires Enabled(w, a) && Ready(w.req, q)
    ensures q.Asking? && TakenBy(q, a) ==> Asleep(w.req) && a.OnRequests? && a.chan.Release?
  {
    hide E.Next, E.Enabled, R.Next, R.Enabled;
  }

  lemma OthersStep(w: World, a: Act, q: Party)
    requires Enabled(w, a) && |RequestStep(w, a)| > 0
    ensures q.Asking? && !TakenBy(q, a) ==> !(RequestStep(w, a)[0].Release? && RequestStep(w, a)[0].c == q.t)
  {
    hide E.Next, E.Enabled, R.Next, R.Enabled, C.Enabled, C.Next;
  }

  // ---- infinite runs ----

  ghost predicate IsRun(tids: set<nat>, tr: nat -> World, acts: nat -> Act) {
    tr(0) == Init(tids) && forall i: nat :: StepAt(tr, acts, i)
  }

  ghost predicate StepAt(tr: nat -> World, acts: nat -> Act, i: nat) {
    Enabled(tr(i), acts(i)) && tr(i + 1) == Next(tr(i), acts(i))
  }

  ghost function Can(tr: nat -> World): (nat, Party) -> bool {
    (i: nat, p: Party) => CanStep(tr(i), p)
  }

  ghost function Moves(acts: nat -> Act): (nat, Party) -> bool {
    (i: nat, p: Party) => TakenBy(p, acts(i))
  }

  ghost function Ranks(tr: nat -> World, p: nat): nat -> Measure {
    (i: nat) => Rank(tr(i).req, p)
  }

  ghost function ReadyIn(tr: nat -> World): (nat, Party) -> bool {
    (i: nat, q: Party) => Ready(tr(i).req, q)
  }

  /** The request `e` has been handled, as the `p`-th, or the timer thread has gone. */
  predicate Answered(w: World, p: nat, e: Request) {
    w.req.rx.Dropped? || (p < |w.req.delivered| && w.req.delivered[p] == e)
  }

  ghost function AnsweredIn(tr: nat -> World, p: nat, e: Request): nat -> bool {
    (i: nat) => Answered(tr(i), p, e)
  }

  lemma {:induction false} InvAt(tids: set<nat>, tr: nat -> World, acts: nat -> Act, i: nat)
    requires IsRun(tids, tr, acts)
    ensures Inv(tr(i))
  {
    hide Inv, Init, Enabled, Next;
    if i == 0 {
      InitHasInv(tids);
    } else {
      InvAt(tids, tr, acts, i - 1);
      assert StepAt(tr, acts, i - 1);
      StepKeepsInv(tr(i - 1), acts(i - 1));
    }
  }

  lemma {:induction false} PendingFrom(tids: set<nat>, tr: nat -> World, acts: nat -> Act, n: nat, p: nat, i: nat)
    requires IsRun(tids, tr, acts) && n <= i && p < |C.Stream(tr(n).req)|
    requires forall m: nat :: n <= m ==> !Answered(tr(m), p, C.Stream(tr(n).req)[p])
    ensures Pending(tr(i).req, p) && C.Stream(tr(i).req)[p] == C.Stream(tr(n).req)[p]
    decreases i
  {
    hide Inv, Init, Enabled, Next;
    assert !Answered(tr(i), p, C.Stream(tr(n).req)[p]);
    if i == n {
    } else {
      PendingFrom(tids, tr, acts, n, p, i - 1);
      assert StepAt(tr, acts, i - 1);
      InvAt(tids, tr, acts, i - 1);
      RequestsAreFine(tr(i - 1));
      StepOfChannel(tr(i - 1), acts(i - 1), p);
    }
  }

  lemma AdvancesAt(tr: nat -> World, acts: nat -> Act, p: nat, i: nat)
    requires Inv(tr(i)) && StepAt(tr, acts, i) && Pending(tr(i).req, p) && !tr(i).req.rx.Dropped?
    ensures LessOrEqual(Rank(tr(i + 1).req, p), Rank(tr(i).req, p))
    ensures exists q :: Ready(tr(i).req, q)
    ensures forall q :: Ready(tr(i).req, q) ==>
      CanStep(tr(i), q) &&
      (TakenBy(q, acts(i)) || !Ready(tr(i + 1).req, q) ==> Less(Rank(tr(i + 1).req, p), Rank(tr(i).req, p)))
  {
    hide Inv, Enabled, Next, Rank, Ready, Less, C.Inv, RequestsInv, CanStep, TakenBy, Pending;
    RequestsAreFine(tr(i));
    StepOfChannel(tr(i), acts(i), p);
    SomebodyIsReady(tr(i).req, p);
    forall q | Ready(tr(i).req, q)
      ensures CanStep(tr(i), q)
      ensures TakenBy(q, acts(i)) || !Ready(tr(i + 1).req, q) ==> Less(Rank(tr(i + 1).req, p), Rank(tr(i).req, p))
    {
      ReadyCanStep(tr(i), q);
      ReadyAdvances(tr(i), acts(i), p, q);
    }
  }

  lemma UnansweredAdvances(tids: set<nat>, tr: nat -> World, acts: nat -> Act, n: nat, p: nat)
    requires IsRun(tids, tr, acts) && p < |C.Stream(tr(n).req)|
    requires forall m: nat :: n <= m ==> !Answered(tr(m), p, C.Stream(tr(n).req)[p])
    ensures AdvancesFrom(Ranks(tr, p), AnsweredIn(tr, p, C.Stream(tr(n).req)[p]), ReadyIn(tr), Can(tr), Moves(acts), n)
  {
    hide Inv, Init, Enabled, Next, Rank, Ready, Less, CanStep, TakenBy, C.Stream;
    forall i: nat | n <= i
      ensures Advances(Ranks(tr, p), AnsweredIn(tr, p, C.Stream(tr(n).req)[p]), ReadyIn(tr), Can(tr), Moves(acts), i)
    {
      PendingFrom(tids, tr, acts, n, p, i);
      InvAt(tids, tr, acts, i);
      assert StepAt(tr, acts, i);
      AdvancesAt(tr, acts, p, i);
      var q :| Ready(tr(i).req, q);
      assert ReadyIn(tr)(i, q);
    }
  }

  /** No accepted request is left waiting: the request accepted as the `p`-th is handled as the `p`-th, in every weakly
    fair infinite run, unless the timer thread goes first. */
  lemma EveryRequestIsHandled(tids: set<nat>, tr: nat -> World, acts: nat -> Act, n: nat, p: nat)
    requires IsRun(tids, tr, acts) && WeaklyFair(Can(tr), Moves(acts)) && p < |tr(n).req.core.log|
    ensures exists m: nat :: n <= m && Answered(tr(m), p, tr(n).req.core.log[p])
  {
    hide IsRun, WeaklyFair, Answered, AdvancesFrom, Inv, RequestsInv;
    InvAt(tids, tr, acts, n);
    RequestsAreFine(tr(n));
    RequestsInOrder(tr(n));
    assert C.Stream(tr(n).req) == tr(n).req.core.log;
    var e := tr(n).req.core.log[p];
    if forall m: nat :: n <= m ==> !Answered(tr(m), p, e) {
      UnansweredAdvances(tids, tr, acts, n, p);
      LeadsTo(Ranks(tr, p), AnsweredIn(tr, p, e), ReadyIn(tr), Can(tr), Moves(acts), n);
    }
  }

  // ---- from the thread that asks to the request handled ----

  /** The request is in the channel, or the timer thread has gone. */
  predicate Entered(k: C.Sys<Request>, e: Request) {
    k.rx.Dropped? || e in k.core.log
  }

  lemma CallerStays(k: C.Sys<Request>, a: C.Act<Request>, t: nat, e: Request)
    requires C.Inv(k) && C.Enabled(k, a) && t in k.senders && k.senders[t] == C.WantsSend(e)
    ensures Entered(C.Next(k, a), e) ||
            (t in C.Next(k, a).senders && C.Next(k, a).senders[t] == C.WantsSend(e) && !(a.Section? && a.c == t))
  {
  }

  lemma AskerStays(w: World, a: Act, t: nat, e: Request)
    requires RequestsInv(w) && Enabled(w, a) && t in w.req.senders && w.req.senders[t] == C.WantsSend(e)
    ensures CanStep(w, Asking(t))
    ensures var k := Next(w, a).req;
      Entered(k, e) || (t in k.senders && k.senders[t] == C.WantsSend(e) && !TakenBy(Asking(t), a))
  {
    assert TakenBy(Asking(t), OnRequests(C.Section(t))) && Enabled(w, OnRequests(C.Section(t)));
    RequestStepIs(w, a);
    ChannelStepIs(w, a);
    hide Next, Enabled, C.Next, C.Inv, Entered, CanStep;
    if |RequestStep(w, a)| > 0 {
      CallerStays(w.req, RequestStep(w, a)[0], t, e);
    }
  }

  lemma ChannelStepIs(w: World, a: Act)
    requires Enabled(w, a)
    ensures a.OnRequests? ==> RequestStep(w, a) == [a.chan]
  {
  }

  lemma {:induction false} AskerWaits(tids: set<nat>, tr: nat -> World, acts: nat -> Act, n: nat, t: nat, e: Request,
                                      i: nat)
    requires IsRun(tids, tr, acts) && n <= i && t in tr(n).req.senders && tr(n).req.senders[t] == C.WantsSend(e)
    requires forall m: nat :: n <= m ==> !Entered(tr(m).req, e)
    ensures t in tr(i).req.senders && tr(i).req.senders[t] == C.WantsSend(e)
    ensures CanStep(tr(i), Asking(t)) && !TakenBy(Asking(t), acts(i))
    decreases i
  {
    hide Inv, Init, Enabled, Next, Entered, CanStep, TakenBy;
    if i > n {
      AskerWaits(tids, tr, acts, n, t, e, i - 1);
      AskerStaysAt(tids, tr, acts, i - 1, t, e);
    }
    AskerStaysAt(tids, tr, acts, i, t, e);
    assert !Entered(tr(i + 1).req, e);
  }

  lemma AskerStaysAt(tids: set<nat>, tr: nat -> World, acts: nat -> Act, i: nat, t: nat, e: Request)
    requires IsRun(tids, tr, acts) && t in tr(i).req.senders && tr(i).req.senders[t] == C.WantsSend(e)
    ensures CanStep(tr(i), Asking(t))
    ensures var k := tr(i + 1).req;
      Entered(k, e) || (t in k.senders && k.senders[t] == C.WantsSend(e) && !TakenBy(Asking(t), acts(i)))
  {
    hide Inv, Init, Enabled, Next, Entered, CanStep, TakenBy;
    assert StepAt(tr, acts, i);
    InvAt(tids, tr, acts, i);
    RequestsAreFine(tr(i));
    AskerStays(tr(i), acts(i), t, e);
  }

  lemma AskerForever(tids: set<nat>, tr: nat -> World, acts: nat -> Act, n: nat, t: nat, e: Request)
    requires IsRun(tids, tr, acts) && t in tr(n).req.senders && tr(n).req.senders[t] == C.WantsSend(e)
    requires forall m: nat :: n <= m ==> !Entered(tr(m).req, e)
    ensures AlwaysCan(Can(tr), Asking(t), n) && forall j: nat :: n <= j ==> !Moves(acts)(j, Asking(t))
  {
    hide IsRun, Entered, CanStep, TakenBy;
    forall j: nat | n <= j ensures Can(tr)(j, Asking(t)) && !Moves(acts)(j, Asking(t)) {
      AskerWaits(tids, tr, acts, n, t, e, j);
    }
  }

  /** Whoever is sending a request gets it into the channel, unless the timer thread goes first. */
  lemma EveryRequestEnters(tids: set<nat>, tr: nat -> World, acts: nat -> Act, n: nat, t: nat, e: Request)
    requires IsRun(tids, tr, acts) && WeaklyFair(Can(tr), Moves(acts))
    requires t in tr(n).req.senders && tr(n).req.senders[t] == C.WantsSend(e)
    ensures exists m: nat :: n <= m && Entered(tr(m).req, e)
  {
    hide IsRun, Entered, CanStep, TakenBy;
    if forall m: nat :: n <= m ==> !Entered(tr(m).req, e) {
      AskerForever(tids, tr, acts, n, t, e);
    }
  }

  /** A stop request for the timer `id` has been handled, or the timer thread has gone. */
  ghost predicate StopHandled(w: World, id: TimerId) {
    w.req.rx.Dropped? || exists p :: 0 <= p < |w.req.delivered| && w.req.delivered[p].StopReq? &&
                                     w.req.delivered[p].target == id
  }

  lemma LoggedStopIsHandled(tids: set<nat>, tr: nat -> World, acts: nat -> Act, n: nat, e: Request)
    requires IsRun(tids, tr, acts) && WeaklyFair(Can(tr), Moves(acts)) && e in tr(n).req.core.log && e.StopReq?
    ensures exists m: nat :: n <= m && StopHandled(tr(m), e.target)
  {
    hide IsRun, WeaklyFair;
    var p: nat :| p < |tr(n).req.core.log| && tr(n).req.core.log[p] == e;
    EveryRequestIsHandled(tids, tr, acts, n, p);
    var m: nat :| n <= m && Answered(tr(m), p, e);
    assert StopHandled(tr(m), e.target);
  }

  /** Where a stop request that a thread has made is now. */
  lemma StopIsSomewhere(w: World, id: TimerId)
    requires Inv(w) && id in w.owner && w.owner[id] in w.threads && id in w.threads[w.owner[id]].stopRequests
    ensures || w.req.rx.Dropped?
            || (exists e :: e in w.req.core.log && e.StopReq? && e.target == id)
            || (exists t, e :: t in w.req.senders && w.req.senders[t] == C.WantsSend(e) && e.StopReq? && e.target == id)
  {
    StopsAskedFor(w, id);
    RequestsAreFine(w);
    hide Inv, RequestsInv;
    var log, senders := w.req.core.log, w.req.senders;
    if w.req.core.dropped == [] {
      assert Among(w.req.core.dropped, true, id) == {};
      if i :| i in Among(log, true, id) {
        assert log[i] in log;
      } else {
        assert Among(log, true, id) == {};
        var t :| t in BeingSent(senders, true, id);
        assert senders[t] == C.WantsSend(senders[t].value);
      }
    }
  }

  /** A stop request that a thread has made for its timer, with `StopTimer` or in the final loop, is handled in every
    weakly fair infinite run, unless the timer thread goes first. */
  lemma EveryStopIsHandled(tids: set<nat>, tr: nat -> World, acts: nat -> Act, n: nat, id: TimerId)
    requires IsRun(tids, tr, acts) && WeaklyFair(Can(tr), Moves(acts)) && id in tr(n).owner
    requires tr(n).owner[id] in tr(n).threads && id in tr(n).threads[tr(n).owner[id]].stopRequests
    ensures exists m: nat :: n <= m && StopHandled(tr(m), id)
  {
    hide IsRun, WeaklyFair, Inv;
    InvAt(tids, tr, acts, n);
    StopIsSomewhere(tr(n), id);
    if tr(n).req.rx.Dropped? {
      assert StopHandled(tr(n), id);
    } else if e :| e in tr(n).req.core.log && e.StopReq? && e.target == id {
      LoggedStopIsHandled(tids, tr, acts, n, e);
    } else {
      var t, e :| t in tr(n).req.senders && tr(n).req.senders[t] == C.WantsSend(e) && e.StopReq? && e.target == id;
      EveryRequestEnters(tids, tr, acts, n, t, e);
      var m: nat :| n <= m && Entered(tr(m).req, e);
      if tr(m).req.rx.Dropped? {
        assert StopHandled(tr(m), id);
      } else {
        LoggedStopIsHandled(tids, tr, acts, m, e);
      }
    }
  }
}
