/** After the handshake: once main has stopped the manager, the manager's thread comes to its end, in the same weakly fair
  runs in which the handshake completes. This puts `LoopLiveness` to work on the loop inside `Shutdown`. */
module ShutdownEnds {
  import opened Events
  import C = ChannelRuns
  import E = EventLoop
  import LL = LoopLiveness
  import opened Fairness
  import opened Shutdown
  import SL = ShutdownLiveness

  /** Main has stopped the manager: nothing of the handshake is left but the manager's own loop. */
  ghost predicate AfterStop(s: State) {
    Inv(s) && s.main.Past?
  }

  lemma WhatIsLeft(s: State)
    requires AfterStop(s)
    ensures LL.Doomed(s.mgr) && s.up && s.terminated && s.handler.NoHandler?
    ensures s.mgr.sys.senders.Keys <= {E.TIMER}
    ensures !s.mgr.sys.rx.Dropped? ==> s.mgr.phase.Running?
  {
    hide E.Inv, NoExitYet, OneShutdown, CallsInv;
  }

  /** The party of the handshake that a party of the loop is. */
  function LoopParty(p: SL.Party): LL.Party {
    match p
    case Manager => LL.LoopThread
    case _ => LL.Caller(E.TIMER)
  }

  ghost predicate Ready(s: State, p: SL.Party) {
    !p.MainThread? && LL.Ready(s.mgr, LoopParty(p))
  }

  /** The step of the loop that a step is, and whose it is. */
  lemma StepOfTheLoop(s: State, a: Act)
    requires AfterStop(s) && Enabled(s, a)
    ensures AfterStop(Next(s, a)) && !a.MainStep?
    ensures var move := MgrMove(s, a);
      if |move| == 0 then Next(s, a).mgr == s.mgr
      else E.Enabled(s.mgr, move[0]) && Next(s, a).mgr == E.Next(s.mgr, move[0])
    ensures forall p :: SL.TakenBy(p, a) ==>
      !p.MainThread? && |MgrMove(s, a)| > 0 && LL.TakenBy(LoopParty(p), MgrMove(s, a)[0])
  {
    hide Inv, E.Enabled, E.Next, LL.Doomed, Next;
    WhatIsLeft(s);
    StepKeepsInv(s, a);
    MainAfter(s, a);
    MgrAfter(s, a);
  }

  lemma SomebodyIsReady(s: State)
    requires AfterStop(s) && !s.mgr.phase.Ended?
    ensures exists p :: Ready(s, p)
  {
    hide AfterStop, LL.Doomed;
    WhatIsLeft(s);
    LL.SomebodyIsReady(s.mgr);
    var q :| LL.Ready(s.mgr, q);
    assert Ready(s, if q.LoopThread? then SL.Manager else SL.TimerThread);
  }

  lemma ReadyCanStep(s: State, p: SL.Party)
    requires AfterStop(s) && Ready(s, p)
    ensures SL.CanStep(s, p)
  {
    WhatIsLeft(s);
    hide AfterStop, LL.Doomed, E.Next, E.Enabled, LL.Ready;
    LL.ReadyCanStep(s.mgr, LoopParty(p));
    var act :| LL.TakenBy(LoopParty(p), act) && E.Enabled(s.mgr, act);
    LoopStepIsOurs(s, p, act);
  }

  lemma LoopStepIsOurs(s: State, p: SL.Party, act: E.Act)
    requires s.up && s.handler.NoHandler? && !p.MainThread? && E.Enabled(s.mgr, act) && LL.TakenBy(LoopParty(p), act)
    requires !s.mgr.sys.rx.Dropped? ==> s.mgr.phase.Running?
    requires s.mgr.sys.senders.Keys <= {E.TIMER} && LL.Ready(s.mgr, LoopParty(p))
    ensures SL.CanStep(s, p)
  {
    var a := if p.TimerThread? then Timer(act) else if act.Dispatch? then Dispatch(act.to) else Loop(act);
    assert SL.TakenBy(p, a) && Enabled(s, a);
  }

  lemma LoopAdvances(s: State, a: Act)
    requires AfterStop(s) && Enabled(s, a)
    ensures LessOrEqual(LL.Rank(Next(s, a).mgr), LL.Rank(s.mgr))
    ensures forall p :: Ready(s, p) && (SL.TakenBy(p, a) || !Ready(Next(s, a), p)) ==>
      Less(LL.Rank(Next(s, a).mgr), LL.Rank(s.mgr))
  {
    hide AfterStop, Enabled, Next, LL.Doomed, E.Enabled, E.Next, LL.Rank, LL.Ready, LL.TakenBy, SL.TakenBy, Less;
    hide MgrMove;
    WhatIsLeft(s);
    StepOfTheLoop(s, a);
    if |MgrMove(s, a)| > 0 {
      LL.StepDescends(s.mgr, MgrMove(s, a)[0]);
      forall p | Ready(s, p) && (SL.TakenBy(p, a) || !Ready(Next(s, a), p))
        ensures Less(LL.Rank(Next(s, a).mgr), LL.Rank(s.mgr))
      {
        LL.ReadyAdvances(s.mgr, MgrMove(s, a)[0], LoopParty(p));
      }
    }
  }

  lemma {:induction false} AfterStopFrom(tr: nat -> State, acts: nat -> Act, n: nat, i: nat)
    requires SL.IsRun(tr, acts) && n <= i && tr(n).main.Past?
    ensures AfterStop(tr(i))
    decreases i
  {
    hide Inv, Enabled, Next;
    SL.InvAt(tr, acts, i);
    if i == n {
    } else {
      AfterStopFrom(tr, acts, n, i - 1);
      assert SL.StepAt(tr, acts, i - 1);
      StepOfTheLoop(tr(i - 1), acts(i - 1));
    }
  }

  lemma AdvancesAt(tr: nat -> State, acts: nat -> Act, i: nat)
    requires AfterStop(tr(i)) && SL.StepAt(tr, acts, i)
    ensures LessOrEqual(LL.Rank(tr(i + 1).mgr), LL.Rank(tr(i).mgr))
    ensures tr(i).mgr.phase.Ended? || exists p :: Ready(tr(i), p)
    ensures forall p :: Ready(tr(i), p) ==>
      SL.CanStep(tr(i), p) &&
      (SL.TakenBy(p, acts(i)) || !Ready(tr(i + 1), p) ==> Less(LL.Rank(tr(i + 1).mgr), LL.Rank(tr(i).mgr)))
  {
    hide AfterStop, Enabled, Next, LL.Rank, Ready, SL.TakenBy, Less, SL.CanStep;
    LoopAdvances(tr(i), acts(i));
    if !tr(i).mgr.phase.Ended? {
      SomebodyIsReady(tr(i));
    }
    forall p | Ready(tr(i), p) ensures SL.CanStep(tr(i), p) {
      ReadyCanStep(tr(i), p);
    }
  }

  lemma LoopEnds(tr: nat -> State, acts: nat -> Act, n: nat)
    requires SL.IsRun(tr, acts) && WeaklyFair(SL.Can(tr), SL.Moves(acts)) && tr(n).main.Past?
    ensures exists m: nat :: n <= m && tr(m).mgr.phase.Ended?
  {
    hide AfterStop, Init, Enabled, Next, LL.Rank, Ready, SL.TakenBy, Less, WeaklyFair, SL.CanStep;
    var rank, done := (i: nat) => LL.Rank(tr(i).mgr), (i: nat) => tr(i).mgr.phase.Ended?;
    var ready := (i: nat, p: SL.Party) => Ready(tr(i), p);
    forall i: nat | n <= i ensures Advances(rank, done, ready, SL.Can(tr), SL.Moves(acts), i) {
      AfterStopFrom(tr, acts, n, i);
      assert SL.StepAt(tr, acts, i);
      AdvancesAt(tr, acts, i);
      if !done(i) {
        var p :| Ready(tr(i), p);
        assert ready(i, p);
      }
    }
    LeadsTo(rank, done, ready, SL.Can(tr), SL.Moves(acts), n);
  }

  /** The whole shutdown: in every weakly fair infinite run in which a shutdown signal is released, main gets past its
    `Stop` call and after that the manager's `Enter` comes to its end. By then every worker has been stopped exactly
    once. */
  lemma ManagerEnds(tr: nat -> State, acts: nat -> Act, n: nat)
    requires SL.IsRun(tr, acts) && WeaklyFair(SL.Can(tr), SL.Moves(acts)) && SL.Signalled(tr(n))
    ensures exists m: nat ::
      && n <= m && tr(m).main.Past? && tr(m).mgr.phase.Ended?
      && forall w :: multiset(tr(m).calls)[StopCall(w)] == if w in tr(m).workers then 1 else 0
  {
    hide SL.IsRun, WeaklyFair, SL.Signalled, Inv, AllWorkersStopped;
    SL.ShutdownCompletes(tr, acts, n);
    var k: nat :| n <= k && tr(k).main.Past?;
    LoopEnds(tr, acts, k);
    var m: nat :| k <= m && tr(m).mgr.phase.Ended?;
    AfterStopFrom(tr, acts, k, m);
    OrderFromInv(tr(m));
    StoppedOnce(tr(m));
  }

  // ---- a shutdown is always possible ----

  lemma {:induction false} RunsOn(s: State, a: Act, acts: seq<Act>)
    requires Enabled(s, a) && Valid(Next(s, a), acts)
    ensures Valid(s, [a] + acts) && Run(s, [a] + acts) == Run(Next(s, a), acts)
  {
    hide Enabled, Next;
    if |acts| == 0 {
      assert [] + [a] == [a] == [a] + acts;
      RunSnoc(s, [], a);
    } else {
      var n := |acts| - 1;
      RunsOn(s, a, acts[..n]);
      assert [a] + acts == ([a] + acts[..n]) + [acts[n]];
      RunSnoc(s, [a] + acts[..n], acts[n]);
    }
  }

  ghost predicate Finishes(s: State, acts: seq<Act>) {
    && Valid(s, acts)
    && var t := Run(s, acts);
       Inv(t) && t.main.Past? && t.mgr.phase.Ended?
  }

  lemma FinishesOn(s: State, a: Act, acts: seq<Act>)
    requires Enabled(s, a) && Finishes(Next(s, a), acts)
    ensures Finishes(s, [a] + acts)
  {
    hide Enabled, Next, Inv;
    RunsOn(s, a, acts);
  }

  lemma NothingLeft(s: State)
    requires AfterStop(s) && s.mgr.phase.Ended?
    ensures Finishes(s, [])
  {
    hide Inv;
  }

  lemma NextLoopStep(s: State) returns (a: Act)
    requires AfterStop(s) && !s.mgr.phase.Ended?
    ensures Enabled(s, a) && AfterStop(Next(s, a)) && Less(LL.Rank(Next(s, a).mgr), LL.Rank(s.mgr))
  {
    hide AfterStop, Enabled, Next, Ready, SL.TakenBy, SL.CanStep, LL.Rank, Less;
    SomebodyIsReady(s);
    var p :| Ready(s, p);
    ReadyCanStep(s, p);
    a := OneOf(s, p);
    LoopAdvances(s, a);
    StepOfTheLoop(s, a);
  }

  lemma OneOf(s: State, p: SL.Party) returns (a: Act)
    requires SL.CanStep(s, p)
    ensures SL.TakenBy(p, a) && Enabled(s, a)
  {
    hide SL.TakenBy, Enabled;
    a :| SL.TakenBy(p, a) && Enabled(s, a);
  }

  lemma {:induction false} LoopCanFinish(s: State)
    requires AfterStop(s)
    ensures exists acts :: Finishes(s, acts)
    decreases LL.Rank(s.mgr).stage, LL.Rank(s.mgr).ahead, LL.Rank(s.mgr).place, LL.Rank(s.mgr).work
  {
    hide AfterStop, Enabled, Next, Finishes, LL.Rank;
    if s.mgr.phase.Ended? {
      NothingLeft(s);
    } else {
      var a := NextLoopStep(s);
      LoopCanFinish(Next(s, a));
      var acts :| Finishes(Next(s, a), acts);
      FinishesOn(s, a, acts);
    }
  }

  lemma {:induction false} HandshakeCanFinish(s: State)
    requires Inv(s) && SL.Signalled(s)
    ensures exists acts :: Finishes(s, acts)
    decreases SL.M(s).stage, SL.M(s).ahead, SL.M(s).place, SL.M(s).work
  {
    hide Inv, Enabled, Next, SL.Ready, SL.TakenBy, SL.CanStep, SL.Progress, SL.M, SL.Signalled, Finishes;
    if s.main.Past? {
      LoopCanFinish(s);
    } else {
      SL.SomebodyIsReady(s);
      var p :| SL.Ready(s, p);
      SL.ReadyCanStep(s, p);
      var a := OneOf(s, p);
      SL.ReadyMakesProgress(s, a, p);
      SL.StepDescends(s, a);
      StepKeepsInv(s, a);
      SL.SignalledStays(s, a);
      HandshakeCanFinish(Next(s, a));
      var acts :| Finishes(Next(s, a), acts);
      FinishesOn(s, a, acts);
    }
  }

  lemma AnySignal(s: State)
    ensures Enabled(s, Signal(1)) && SL.Signalled(Next(s, Signal(1)))
  {
  }

  /** Nothing the runtime does rules its shutdown out: every run can be continued, by one more signal, to a state where
    main is past `Stop`, the manager's thread has ended and every attached worker has been stopped exactly once. */
  lemma ShutdownIsAlwaysPossible(acts: seq<Act>)
    requires Valid(Init(), acts)
    ensures exists more ::
      && Valid(Run(Init(), acts), [Signal(1)] + more)
      && var t := Run(Run(Init(), acts), [Signal(1)] + more);
         t.main.Past? && t.mgr.phase.Ended? &&
         forall w :: multiset(t.calls)[StopCall(w)] == if w in t.workers then 1 else 0
  {
    hide Inv, Init, Enabled, Next, SL.Signalled, AllWorkersStopped, Valid, Run;
    InitHasInv();
    RunKeepsInv(Init(), acts);
    var s := Run(Init(), acts);
    AnySignal(s);
    StepKeepsInv(s, Signal(1));
    HandshakeCanFinish(Next(s, Signal(1)));
    var more :| Finishes(Next(s, Signal(1)), more);
    FinishesOn(s, Signal(1), more);
    OrderFromInv(Run(s, [Signal(1)] + more));
    StoppedOnce(Run(s, [Signal(1)] + more));
  }

  // ---- weakly fair runs with a signal exist ----

  /** Everybody has finished: main, the manager, and the timer thread with the expiry it was sending. */
  ghost predicate AtRest(s: State) {
    && Inv(s) && s.main.Past? && s.mgr.phase.Ended? && s.up && s.initiate == 1 && E.TIMER !in s.mgr.sys.senders
  }

  lemma NobodyCanStep(s: State, p: SL.Party)
    requires AtRest(s)
    ensures !SL.CanStep(s, p)
  {
    EndedIsAlone(s);
    forall a | SL.TakenBy(p, a) ensures !Enabled(s, a) {
    }
  }

  lemma EndedIsAlone(s: State)
    requires Inv(s) && s.main.Past? && s.mgr.phase.Ended?
    ensures s.handler.NoHandler? && s.mgr.sys.rx.Dropped? && s.mgr.sys.core.disconnected && s.initiated == 0
  {
    assert C.Fifo(s.mgr.sys);
    hide E.Inv, CallersInv, NoExitYet, OneShutdown, CallsInv;
  }

  /** What is left of an expiry the timer thread was sending to the manager that has ended. */
  function LastMove(s: State): seq<Act> {
    var k := s.mgr.sys.senders;
    if E.TIMER !in k then []
    else [Timer(if k[E.TIMER].Releasing? then E.Release(E.TIMER, 1) else E.Section(E.TIMER))]
  }

  lemma LastMoveIsLast(s: State)
    requires Inv(s) && s.main.Past? && s.mgr.phase.Ended? && E.TIMER in s.mgr.sys.senders
    ensures Enabled(s, LastMove(s)[0])
    ensures var t := Next(s, LastMove(s)[0]); t.main.Past? && t.mgr.phase.Ended? && E.TIMER !in t.mgr.sys.senders
  {
    EndedIsAlone(s);
    hide Inv;
  }

  lemma SignalledAtRest(s: State)
    requires Inv(s) && s.main.Past? && s.mgr.phase.Ended? && E.TIMER !in s.mgr.sys.senders
    ensures Enabled(s, Signal(1)) && AtRest(Next(s, Signal(1)))
  {
    StepKeepsInv(s, Signal(1));
    WhatIsLeft(s);
    hide Inv;
  }

  lemma RestIsLasting(s: State)
    requires AtRest(s)
    ensures Enabled(s, Signal(1)) && Next(s, Signal(1)) == s && SL.Signalled(s)
  {
    hide Inv;
  }

  lemma {:induction false} Joined(s: State, first: seq<Act>, second: seq<Act>)
    requires Valid(s, first) && Valid(Run(s, first), second)
    ensures Valid(s, first + second) && Run(s, first + second) == Run(Run(s, first), second)
  {
    hide Enabled, Next;
    if |second| == 0 {
      assert first + second == first;
    } else {
      var n := |second| - 1;
      Joined(s, first, second[..n]);
      assert first + second == (first + second[..n]) + [second[n]];
      RunSnoc(s, first + second[..n], second[n]);
    }
  }

  /** From every reachable state there is a way to rest. */
  lemma RestIsReachable(s: State) returns (acts: seq<Act>)
    requires Inv(s)
    ensures Valid(s, acts) && AtRest(Run(s, acts))
  {
    AnySignal(s);
    StepKeepsInv(s, Signal(1));
    hide Inv, Enabled, Next, SL.Signalled, Finishes, AtRest, LastMove;
    HandshakeCanFinish(Next(s, Signal(1)));
    acts :| Finishes(Next(s, Signal(1)), acts);
    FinishesOn(s, Signal(1), acts);
    acts := [Signal(1)] + acts;
    acts := TimerFinishes(s, acts);
    SignalledAtRest(Run(s, acts));
    RunSnoc(s, acts, Signal(1));
    acts := acts + [Signal(1)];
  }

  lemma TimerFinishes(s: State, acts: seq<Act>) returns (all: seq<Act>)
    requires Finishes(s, acts)
    ensures Valid(s, all)
    ensures var t := Run(s, all); Inv(t) && t.main.Past? && t.mgr.phase.Ended? && E.TIMER !in t.mgr.sys.senders
  {
    hide Inv, Enabled, Next;
    var t := Run(s, acts);
    all := acts;
    if E.TIMER in t.mgr.sys.senders {
      LastMoveIsLast(t);
      StepKeepsInv(t, LastMove(t)[0]);
      RunSnoc(s, acts, LastMove(t)[0]);
      all := acts + [LastMove(t)[0]];
    }
  }

  lemma {:induction false} PrefixIsValid(s: State, acts: seq<Act>, i: nat)
    requires Valid(s, acts) && i <= |acts|
    ensures Valid(s, acts[..i])
  {
    hide Enabled, Next;
    if i == |acts| {
      assert acts[..i] == acts;
    } else {
      var n := |acts| - 1;
      PrefixIsValid(s, acts[..n], i);
      assert acts[..n][..i] == acts[..i];
    }
  }

  /** The run that makes the steps `acts` and then only hears signals. */
  ghost function StateAt(acts: seq<Act>, i: nat): State
    requires Valid(Init(), acts)
  {
    if i < |acts| && Valid(Init(), acts[..i]) then Run(Init(), acts[..i]) else Run(Init(), acts)
  }

  function ActAt(acts: seq<Act>, i: nat): Act {
    if i < |acts| then acts[i] else Signal(1)
  }

  lemma StepsAlong(acts: seq<Act>, i: nat)
    requires Valid(Init(), acts) && AtRest(Run(Init(), acts))
    ensures Enabled(StateAt(acts, i), ActAt(acts, i))
    ensures StateAt(acts, i + 1) == Next(StateAt(acts, i), ActAt(acts, i))
  {
    hide Enabled, Next, AtRest, Init;
    if i < |acts| {
      PrefixIsValid(Init(), acts, i);
      PrefixIsValid(Init(), acts, i + 1);
      assert acts[..i + 1][..i] == acts[..i];
      if i + 1 == |acts| {
        assert acts[..i + 1] == acts;
      }
    } else {
      RestIsLasting(Run(Init(), acts));
    }
  }

  ghost function StatesAlong(acts: seq<Act>): nat -> State
    requires Valid(Init(), acts)
  {
    (i: nat) => StateAt(acts, i)
  }

  ghost function ActsAlong(acts: seq<Act>): nat -> Act {
    (i: nat) => ActAt(acts, i)
  }

  lemma RunAlong(acts: seq<Act>)
    requires Valid(Init(), acts) && AtRest(Run(Init(), acts))
    ensures SL.IsRun(StatesAlong(acts), ActsAlong(acts))
  {
    hide Enabled, Next, AtRest, StateAt, Valid, Run, Init;
    StartsAtInit(acts);
    forall i: nat ensures SL.StepAt(StatesAlong(acts), ActsAlong(acts), i) {
      StepsAlong(acts, i);
    }
  }

  lemma FairAlong(acts: seq<Act>)
    requires Valid(Init(), acts) && AtRest(Run(Init(), acts))
    ensures WeaklyFair(SL.Can(StatesAlong(acts)), SL.Moves(ActsAlong(acts)))
  {
    hide AtRest, Valid, Run, Init, SL.CanStep, SL.TakenBy;
    forall p, i: nat ensures !AlwaysCan(SL.Can(StatesAlong(acts)), p, i) {
      NobodyCanStep(Run(Init(), acts), p);
      assert !SL.Can(StatesAlong(acts))(i + |acts|, p);
    }
  }

  lemma StartsAtInit(acts: seq<Act>)
    requires Valid(Init(), acts)
    ensures StateAt(acts, 0) == Init()
  {
    assert acts[..0] == [];
  }

  /** A weakly fair infinite run that starts with the steps `acts`, and has a signal. */
  ghost predicate GoesOnFairly(acts: seq<Act>, tr: nat -> State, steps: nat -> Act) {
    && SL.IsRun(tr, steps) && WeaklyFair(SL.Can(tr), SL.Moves(steps))
    && (forall i: nat :: i < |acts| ==> steps(i) == acts[i])
    && exists n: nat :: SL.Signalled(tr(n))
  }

  /** Fairness rules nothing out: every finite run goes on as an infinite one that is weakly fair and has a signal, so the
    results about such runs speak of all that the runtime can have done so far. */
  lemma EveryRunIsFairInTheEnd(acts: seq<Act>)
    requires Valid(Init(), acts)
    ensures exists tr, steps :: GoesOnFairly(acts, tr, steps)
  {
    InitHasInv();
    RunKeepsInv(Init(), acts);
    hide *;
    var more := RestIsReachable(Run(Init(), acts));
    Joined(Init(), acts, more);
    FairRunAlong(acts, more);
  }

  lemma FairRunAlong(acts: seq<Act>, more: seq<Act>)
    requires Valid(Init(), acts + more) && AtRest(Run(Init(), acts + more))
    ensures GoesOnFairly(acts, StatesAlong(acts + more), ActsAlong(acts + more))
  {
    hide Valid, Run, AtRest, Init, SL.IsRun, WeaklyFair, SL.Signalled, StateAt;
    RunAlong(acts + more);
    FairAlong(acts + more);
    EndOfRun(acts + more);
  }

  lemma EndOfRun(acts: seq<Act>)
    requires Valid(Init(), acts) && AtRest(Run(Init(), acts))
    ensures SL.Signalled(StatesAlong(acts)(|acts|))
  {
    RestIsLasting(Run(Init(), acts));
    hide AtRest, Enabled, Next;
  }
}
