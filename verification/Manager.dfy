/** `ManagerThread` of src/main/manager_thread.cpp, updating its fields in place on top of the `Thread` it inherits
  from.

  The object runs the whole of the inherited loop, with its own handlers in the dispatch loop. As in `Threads`, other
  threads act between any two steps, every step is recorded in `trace`, and the object is always in the state that
  `Shutdown.Run` computes from it. So the order of the shutdown and the silence after the teardown, proved there about
  all runs, hold of this code. */
module Managers {
  import opened Events
  import opened Channel
  import C = ChannelRuns
  import E = EventLoop
  import T = LoopTimers
  import S = Shutdown
  import Threads

  // ---- single steps, spelled out ----

  lemma AttachEffect(s: S.State, w: nat)
    requires s.main.Attaching? && !s.handler.SendingTests? && !s.handler.Tearing?
    ensures S.Enabled(s, S.Attach(w)) && S.Next(s, S.Attach(w)) == s.(workers := s.workers + {w})
  {
  }

  lemma SignalEffect(s: S.State, to: nat)
    requires 1 <= to <= s.initiate + 1
    ensures S.Enabled(s, S.Signal(to)) && S.Next(s, S.Signal(to)) == s.(initiate := to)
  {
  }

  lemma TimerEffect(s: S.State, act: E.Act)
    requires S.TimerMove(act) && E.Enabled(s.mgr, act)
    ensures S.Enabled(s, S.Timer(act)) && S.Next(s, S.Timer(act)) == s.(mgr := E.Next(s.mgr, act))
  {
  }

  lemma UpEffect(s: S.State, id: TimerId)
    requires !s.up && E.Enabled(s.mgr, E.StartTimer(id))
    ensures S.Enabled(s, S.Up(id))
    ensures S.Next(s, S.Up(id)) == s.(mgr := E.Next(s.mgr, E.StartTimer(id)), up := true, transmitTimer := id)
  {
  }

  lemma WorkerEffect(s: S.State, w: nat)
    ensures s.handler.SendingTests? && w in s.handler.todo ==>
      S.Enabled(s, S.WorkerStep(w)) && S.Next(s, S.WorkerStep(w)) ==
        s.(handler := S.SendingTests(s.handler.todo - {w}), calls := s.calls + [S.Test(w)])
    ensures s.handler.Tearing? && w in s.handler.todo ==>
      S.Enabled(s, S.WorkerStep(w)) && S.Next(s, S.WorkerStep(w)) ==
        s.(handler := S.Tearing(s.handler.todo - {w}), calls := s.calls + [S.StopCall(w)])
  {
  }

  lemma UnlockEffect(s: S.State)
    requires s.handler == S.SendingTests({}) || s.handler == S.Tearing({})
    ensures S.Enabled(s, S.Unlock)
    ensures S.Next(s, S.Unlock) == s.(handler := if s.handler.Tearing? then S.Initiated else S.NoHandler)
  {
  }

  lemma DoneEffect(s: S.State, to: nat)
    requires s.handler.Initiated? && 1 <= to <= s.initiated + 1
    ensures S.Enabled(s, S.SignalDone(to))
    ensures S.Next(s, S.SignalDone(to)) == s.(handler := S.NoHandler, initiated := to)
  {
  }

  lemma ShutdownEffect(s: S.State, to: nat)
    requires S.Enabled(s, S.Dispatch(to)) && Front(s, Event.Shutdown)
    ensures E.Enabled(s.mgr, E.Dispatch(to))
    ensures var mgr, t := E.Next(s.mgr, E.Dispatch(to)), S.Next(s, S.Dispatch(to));
      if s.terminated then
        t == s.(mgr := mgr, handler := S.Initiated, shutdownsHandled := s.shutdownsHandled + 1)
      else
        E.Enabled(mgr, E.StopTimer(s.transmitTimer)) &&
        t == s.(mgr := E.Next(mgr, E.StopTimer(s.transmitTimer)), terminated := true, handler := S.Tearing(s.workers),
                shutdownsHandled := s.shutdownsHandled + 1)
  {
  }

  lemma ExpiryEffect(s: S.State, to: nat, id: TimerId)
    requires S.Enabled(s, S.Dispatch(to)) && Front(s, Expired(id))
    ensures E.Enabled(s.mgr, E.Dispatch(to)) && S.Next(s, S.Dispatch(to)) == s.(
      mgr := E.Next(s.mgr, E.Dispatch(to)),
      handler := if id in s.mgr.timers && !s.terminated then S.SendingTests(s.workers) else s.handler)
  {
  }

  lemma OtherEffect(s: S.State, to: nat, e: Event)
    requires S.Enabled(s, S.Dispatch(to)) && Front(s, e) && !e.Shutdown? && !e.Expired?
    ensures E.Enabled(s.mgr, E.Dispatch(to))
    ensures S.Next(s, S.Dispatch(to)) == s.(mgr := E.Next(s.mgr, E.Dispatch(to)))
  {
  }

  lemma LoopEffect(s: S.State, act: E.Act)
    requires s.up && s.handler.NoHandler? && S.LoopMove(act) && E.Enabled(s.mgr, act)
    ensures S.Enabled(s, S.Loop(act)) && S.Next(s, S.Loop(act)) == s.(mgr := E.Next(s.mgr, act))
  {
  }

  lemma CanDispatch(s: S.State, to: nat)
    requires s.up && s.handler.NoHandler? && s.mgr.phase.Running? && E.Enabled(s.mgr, E.Dispatch(to))
    ensures S.Enabled(s, S.Dispatch(to))
  {
  }

  lemma DispatchKeepsTimers(s: E.Loop, to: nat)
    requires E.Enabled(s, E.Dispatch(to))
    ensures E.Next(s, E.Dispatch(to)).timers == s.timers && E.Next(s, E.Dispatch(to)).phase == s.phase
  {
  }

  lemma MainEffect(s: S.State, to: nat)
    requires S.MainMoves(s.main) && E.Enabled(s.mgr, S.MainMove(s, to))
    ensures S.Enabled(s, S.MainStep(to))
    ensures S.Next(s, S.MainStep(to)) == s.(mgr := E.Next(s.mgr, S.MainMove(s, to)), main := S.AfterMain(s))
  {
  }

  lemma WaitEffect(s: S.State)
    ensures s.main.Attaching? ==>
      S.Enabled(s, S.MainStep(1)) && S.Next(s, S.MainStep(1)) == s.(main := S.WaitInitiate)
    ensures s.main.WaitInitiate? && s.initiate > 0 ==>
      S.Enabled(s, S.MainStep(1)) && S.Next(s, S.MainStep(1)) == s.(main := S.Transmit, initiate := s.initiate - 1)
    ensures s.main.WaitInitiated? && s.initiated > 0 ==>
      S.Enabled(s, S.MainStep(1)) && S.Next(s, S.MainStep(1)) == s.(main := S.StopCheck, initiated := s.initiated - 1)
  {
  }

  /** Where main stands in its calls on the manager's channel. */
  lemma MainsPlace(s: S.State)
    requires S.CallersInv(s)
    ensures var k := s.mgr.sys.senders;
      && (s.main.Transmit? || s.main.StopCheck? ==> S.MAIN !in k && S.MAIN !in s.mgr.stopChecked && !s.mgr.stopping)
      && (s.main.SendSection? ==> S.MAIN in k && k[S.MAIN] == C.WantsSend(Event.Shutdown))
      && (s.main.StopSection? ==> S.MAIN in k && k[S.MAIN] == C.WantsFlush(Exit))
      && (s.main.SendRelease? || s.main.StopRelease? ==> S.MAIN in k && k[S.MAIN].Releasing?)
      && (s.main.StopStore? ==> S.MAIN !in k && S.MAIN in s.mgr.stopChecked)
  {
  }

  predicate IsForeign(a: S.Act) {
    a.Attach? || a.MainStep? || a.Signal? || a.Timer?
  }

  /** Where the loop stands is the same. */
  ghost predicate Steady(m: E.Loop, n: E.Loop) {
    && n.sys.rx == m.sys.rx && n.sys.delivered == m.sys.delivered && n.phase == m.phase
    && n.stopRequested == m.stopRequested
  }

  lemma StopTimerIsSteady(m: E.Loop, id: TimerId)
    requires E.Enabled(m, E.StopTimer(id))
    ensures Steady(m, E.Next(m, E.StopTimer(id)))
  {
  }

  lemma StartTimerIsSteady(m: E.Loop, id: TimerId)
    requires E.Enabled(m, E.StartTimer(id))
    ensures Steady(m, E.Next(m, E.StartTimer(id)))
  {
  }

  /** What other threads cannot do to the manager's loop and to a handler that is running. */
  ghost predicate Undisturbed(s: S.State, t: S.State) {
    && t.handler == s.handler && t.terminated == s.terminated && t.calls == s.calls && t.up == s.up
    && t.transmitTimer == s.transmitTimer && t.shutdownsHandled == s.shutdownsHandled
    && t.mgr.timers == s.mgr.timers && Steady(s.mgr, t.mgr)
    && (s.handler.SendingTests? || s.handler.Tearing? || s.terminated ==> t.workers == s.workers)
  }

  lemma ForeignFrame(s: S.State, a: S.Act)
    requires S.Inv(s) && S.Enabled(s, a) && IsForeign(a)
    ensures Undisturbed(s, S.Next(s, a))
  {
    hide E.Inv, S.CallersInv, S.NoExitYet, S.PlaceInv, S.OneShutdown, S.CallsInv, E.Next, E.Enabled;
    var move := S.MgrMove(s, a);
    if |move| > 0 {
      CallsAreSteady(s.mgr, move[0]);
    }
  }

  lemma NotSignalledYet(s: S.State)
    requires S.Inv(s) && s.handler.Initiated?
    ensures s.initiated == 0
  {
    hide E.Inv, S.CallersInv, S.NoExitYet, S.PlaceInv, S.OneShutdown, S.CallsInv;
  }

  lemma CallsAreSteady(m: E.Loop, a: E.Act)
    requires E.Enabled(m, a)
    requires !a.Acquire? && !a.Timeout? && !a.Take? && !a.Dispatch? && !a.EndPass? && !a.Leave? && !a.BeginClose?
    requires !a.CloseTimer? && !a.End? && !a.StartTimer? && !a.StopTimer?
    ensures Steady(m, E.Next(m, a)) && E.Next(m, a).timers == m.timers
  {
  }

  /** The event the dispatch loop has reached. */
  predicate Front(s: S.State, e: Event) {
    var rx := s.mgr.sys.rx;
    rx.Passing? && |rx.rest| > 0 && rx.rest[0] == e
  }

  type Schedule = seq<seq<S.Act>>

  function At(env: Schedule, i: nat): seq<S.Act> {
    if i < |env| then env[i] else []
  }

  /** What happens before one event is dispatched, and between the steps of its handler. */
  datatype Round = Round(before: seq<S.Act>, within: Schedule)

  /** One call of `ProcessEvents`: does the wait give up early, and what happens before the batch is taken, during its
    rounds, and before the left-over check. */
  datatype Pass = Pass(expired: bool, taking: seq<S.Act>, rounds: seq<Round>, ending: seq<S.Act>)

  function RoundAt(rounds: seq<Round>, i: nat): Round {
    if i < |rounds| then rounds[i] else Round([], [])
  }

  /** `calls` is `before` with one call of kind `stop` on every worker of `ws`, in some order, and nothing else. */
  ghost predicate CalledEachOnce(before: seq<S.WorkerCall>, calls: seq<S.WorkerCall>, ws: set<nat>, stop: bool) {
    && before <= calls
    && (forall i :: |before| <= i < |calls| ==> calls[i].StopCall? == stop)
    && (forall c :: T.Times(calls, c) == T.Times(before, c) + S.One(c.worker in ws && c.StopCall? == stop))
  }

  lemma CallOneMore(before: seq<S.WorkerCall>, calls: seq<S.WorkerCall>, ws: set<nat>, stop: bool, w: nat)
    requires CalledEachOnce(before, calls, ws, stop) && w !in ws
    ensures CalledEachOnce(before, calls + [if stop then S.StopCall(w) else S.Test(w)], ws + {w}, stop)
  {
  }

  lemma CallsMade(before: seq<S.WorkerCall>, calls: seq<S.WorkerCall>, ws: set<nat>, stop: bool)
    requires CalledEachOnce(before, calls, ws, stop)
    ensures forall w ::
      multiset(calls)[S.Test(w)] ==
      multiset(before)[S.Test(w)] + if w in ws && !stop then 1 else 0
    ensures forall w ::
      multiset(calls)[S.StopCall(w)] ==
      multiset(before)[S.StopCall(w)] + if w in ws && stop then 1 else 0
  {
    forall w ensures multiset(calls)[S.Test(w)] == multiset(before)[S.Test(w)] + if w in ws && !stop then 1 else 0 {
      assert T.Times(calls, S.Test(w)) == T.Times(before, S.Test(w)) + S.One(w in ws && !stop);
    }
    forall w
      ensures multiset(calls)[S.StopCall(w)] == multiset(before)[S.StopCall(w)] + if w in ws && stop then 1 else 0
    {
      assert T.Times(calls, S.StopCall(w)) == T.Times(before, S.StopCall(w)) + S.One(w in ws && stop);
    }
  }

  ghost predicate OnlyTests(before: seq<S.WorkerCall>, calls: seq<S.WorkerCall>) {
    before <= calls && forall i :: |before| <= i < |calls| ==> calls[i].Test?
  }

  /** What the events of a pass may have done to the workers. `over` says that they were terminated before, and `shut`
    that the Shutdown was among the events: then tests come first, and after them one stop for each worker and nothing
    else. */
  ghost predicate PassCalls(start: seq<S.WorkerCall>, calls: seq<S.WorkerCall>, ws: set<nat>, over: bool, shut: bool) {
    if over then calls == start
    else if !shut then OnlyTests(start, calls)
    else exists tests :: OnlyTests(start, tests) && CalledEachOnce(tests, calls, ws, true)
  }

  lemma PassGoesOn(start: seq<S.WorkerCall>, before: seq<S.WorkerCall>, calls: seq<S.WorkerCall>, ws: set<nat>,
                   over: bool, shut: bool, e: Event)
    requires PassCalls(start, before, ws, over, shut) && (over ==> !shut)
    requires e.Shutdown? ==> !over && !shut && CalledEachOnce(before, calls, ws, true)
    requires !e.Shutdown? ==> calls == before || (!over && !shut && CalledEachOnce(before, calls, ws, false))
    ensures PassCalls(start, calls, ws, over, shut || e.Shutdown?)
  {
    hide T.Times;
  }

  /** The first `n` passes each waited for a permit once, and got one exactly if there was one and the wait did not give up
    early. */
  predicate WaitedFor(before: seq<E.Wait>, waits: seq<E.Wait>, passes: seq<Pass>, n: nat) {
    && n <= |passes| && before <= waits && |waits| == |before| + n
    && forall i :: |before| <= i < |waits| ==>
         waits[i].acquired == (!passes[i - |before|].expired && waits[i].permits > 0)
  }

  lemma WaitedOnce(before: seq<E.Wait>, waits: seq<E.Wait>, passes: seq<Pass>, n: nat, w: E.Wait)
    requires WaitedFor(before, waits, passes, n) && n < |passes|
    requires w.acquired == (!passes[n].expired && w.permits > 0)
    ensures WaitedFor(before, waits + [w], passes, n + 1)
  {
  }

  // ---- the bounded waits ----

  /** TEARDOWN_THRESHOLD; the clock counts nanoseconds. */
  const TEARDOWN_THRESHOLD_MS: int := 1000
  const NS_PER_MS: int := 1_000_000
  const SLEEP_NS: int := 20 * NS_PER_MS

  /** `duration_cast` to milliseconds truncates towards zero. */
  function ToMs(ns: int): int {
    if ns >= 0 then ns / NS_PER_MS else -(-ns / NS_PER_MS)
  }

  /** Every sleep of 20ms lasts at least that long. */
  ghost predicate SleepsLongEnough(clock: nat -> int) {
    forall i: nat :: Later(clock, i)
  }

  predicate Later(clock: nat -> int, i: nat) {
    clock(i + 1) >= clock(i) + SLEEP_NS
  }

  /** The wait goes round once more after `i` sleeps. */
  predicate KeepsWaiting(running: nat -> bool, clock: nat -> int, i: nat) {
    running(i) && (i > 0 ==> ToMs(clock(i) - clock(0)) < TEARDOWN_THRESHOLD_MS)
  }

  /** A wait ends after `n` sleeps: either the thread was seen not running, or the threshold was reached. `running(i)` is
    what the thread reports before the next sleep and `clock(i)` the time after the last. */
  ghost predicate WaitEnds(running: nat -> bool, clock: nat -> int, n: nat, gaveUp: bool) {
    && (forall i: nat :: i < n ==> KeepsWaiting(running, clock, i))
    && (gaveUp <==> n > 0 && ToMs(clock(n) - clock(0)) >= TEARDOWN_THRESHOLD_MS)
    && (!gaveUp ==> !running(n))
  }

  lemma {:induction false} SleepsAddUp(clock: nat -> int, n: nat)
    requires SleepsLongEnough(clock)
    ensures clock(n) - clock(0) >= n * SLEEP_NS
  {
    if n == 0 {
    } else {
      SleepsAddUp(clock, n - 1);
      assert Later(clock, n - 1);
    }
  }

  lemma FiftyAreEnough(running: nat -> bool, clock: nat -> int)
    requires SleepsLongEnough(clock)
    ensures !KeepsWaiting(running, clock, 50)
  {
    SleepsAddUp(clock, 50);
  }

  /** Below the threshold there is room for another sleep. */
  lemma RoomForAnother(clock: nat -> int, sleeps: nat)
    requires SleepsLongEnough(clock)
    requires sleeps > 0 ==> ToMs(clock(sleeps) - clock(0)) < TEARDOWN_THRESHOLD_MS
    ensures sleeps < 50
  {
    SleepsAddUp(clock, sleeps);
  }

  lemma EndsWhereItStops(running: nat -> bool, clock: nat -> int, n: nat, gaveUp: bool)
    requires WaitEnds(running, clock, n, gaveUp)
    ensures !KeepsWaiting(running, clock, n)
  {
  }

  /** Whatever the threads report, a wait sleeps at most 50 times, and how it ends is determined. */
  lemma WaitIsBounded(running: nat -> bool, clock: nat -> int, n: nat, gaveUp: bool)
    requires SleepsLongEnough(clock) && WaitEnds(running, clock, n, gaveUp)
    ensures n <= 50
    ensures forall m: nat, g: bool :: WaitEnds(running, clock, m, g) ==> m == n && g == gaveUp
  {
    hide KeepsWaiting;
    FiftyAreEnough(running, clock);
    EndsWhereItStops(running, clock, n, gaveUp);
    forall m: nat, g: bool | WaitEnds(running, clock, m, g) ensures m == n && g == gaveUp {
      EndsWhereItStops(running, clock, m, g);
    }
  }

  lemma ClockGoesOn(clock: nat -> int, n: nat)
    requires SleepsLongEnough(clock)
    ensures clock(n) >= clock(0)
    ensures ToMs(clock(n) - clock(0)) >= TEARDOWN_THRESHOLD_MS <==> clock(n) - clock(0) >= 1_000_000_000
  {
    SleepsAddUp(clock, n);
  }

  /** The same on the clock itself, without the rounding to milliseconds: a wait gives up at the first reading after a
    sleep that is a second or more past its start, and it goes on as long as the thread is seen running. */
  lemma WaitInNanoseconds(running: nat -> bool, clock: nat -> int, n: nat, gaveUp: bool)
    requires SleepsLongEnough(clock) && WaitEnds(running, clock, n, gaveUp)
    ensures gaveUp <==> n > 0 && clock(n) - clock(0) >= 1_000_000_000
    ensures forall i: nat :: 0 < i < n ==> clock(i) - clock(0) < 1_000_000_000
    ensures (forall i: nat :: i < n ==> running(i)) && (!gaveUp ==> !running(n))
  {
    hide SleepsLongEnough, ToMs;
    ClockGoesOn(clock, n);
    forall i: nat | i < n ensures running(i) && (i > 0 ==> clock(i) - clock(0) < 1_000_000_000) {
      ClockGoesOn(clock, i);
      assert KeepsWaiting(running, clock, i);
    }
  }

  /** The bound is reached: sleeps of exactly 20ms and a thread that never stops running. */
  lemma FiftySleepsHappen()
    ensures exists running: nat -> bool, clock: nat -> int ::
      && (forall i: nat :: running(i)) && (forall i: nat :: clock(i) == i * 20_000_000)
      && SleepsLongEnough(clock) && WaitEnds(running, clock, 50, true)
  {
    var running, clock := (i: nat) => true, (i: nat) => i * SLEEP_NS;
    assert SleepsLongEnough(clock);
    forall i: nat | i < 50 ensures KeepsWaiting(running, clock, i) {
      assert clock(i) - clock(0) == i * SLEEP_NS <= 49 * SLEEP_NS;
    }
    assert clock(50) - clock(0) == 1000 * NS_PER_MS;
    assert WaitEnds(running, clock, 50, true);
  }

  /** What `WorkersRunning` returns the i-th time. */
  ghost function AnyRunning(workers: set<nat>, isRunning: nat -> nat -> bool): nat -> bool {
    (i: nat) => exists w :: w in workers && isRunning(i)(w)
  }

  lemma AnyRunningIs(workers: set<nat>, isRunning: nat -> nat -> bool, i: nat)
    ensures AnyRunning(workers, isRunning)(i) <==> exists w :: w in workers && isRunning(i)(w)
  {
  }

  // ---- the object ----

  class ManagerThread {
    const base: Threads.Thread
    var workers: set<nat>
    var workersTerminated: bool
    var shutdownInitiateSignal: nat
    var shutdownInitiatedSignal: nat
    var transmitTimerId: TimerId
    var workersLocked: bool  // m_workersMtx is held by a handler
    var up: bool

    // what the code does to the workers
    var calls: seq<S.WorkerCall>

    // where the main thread stands in its calls on this object
    var mainAt: S.MainPc

    ghost var trace: seq<S.Act>
    ghost var model: S.State

    ghost predicate History()
      reads this
    {
      S.Valid(S.Init(), trace) && model == S.Run(S.Init(), trace)
    }

    ghost predicate OwnFields()
      reads this
    {
      && model.workers == workers && model.terminated == workersTerminated && model.calls == calls
      && model.initiate == shutdownInitiateSignal && model.initiated == shutdownInitiatedSignal
      && model.transmitTimer == transmitTimerId && model.up == up && model.main == mainAt
      && (workersLocked <==> model.handler.SendingTests? || model.handler.Tearing?)
    }

    ghost predicate Valid()
      reads this, base, base.notifier
    {
      History() && OwnFields() && base.Valid() && base.model == model.mgr
    }

    /** The dispatch loop has handed the event `e` over: the thread is one step ahead of what the handler has done. */
    ghost predicate Handling(e: Event, to: nat)
      reads this, base, base.notifier
    {
      && History() && OwnFields() && base.Valid()
      && S.Enabled(model, S.Dispatch(to)) && Front(model, e)
      && E.Enabled(model.mgr, E.Dispatch(to)) && base.model == E.Next(model.mgr, E.Dispatch(to))
    }

    constructor ()
      ensures Valid() && fresh(base) && fresh(base.notifier) && model == S.Init() && !base.entered
    {
      base := new Threads.Thread();
      workers, workersTerminated, calls := {}, false, [];
      shutdownInitiateSignal, shutdownInitiatedSignal, transmitTimerId := 0, 0, 0;
      workersLocked, up, mainAt := false, false, S.Attaching;
      trace, model := [], S.Init();
    }

    /** No wait for a permit, and `Enter` where it was. */
    twostate predicate Quiet()
      reads base
    {
      base.waits == old(base.waits) && base.entered == old(base.entered)
    }

    twostate predicate Did(a: S.Act)
      reads this
    {
      trace == old(trace) + [a] && S.Enabled(old(model), a) && model == S.Next(old(model), a)
    }

    ghost method Record(a: S.Act)
      requires History() && S.Enabled(model, a)
      modifies this`trace, this`model
      ensures History() && Did(a)
    {
      S.RunSnoc(S.Init(), trace, a);
      trace, model := trace + [a], S.Next(model, a);
    }

    lemma TimersAgree()
      requires base.Valid()
      ensures base.timers.Keys == base.model.timers && base.closing == !base.model.phase.Running?
      ensures base.stopRequested == base.model.stopRequested
    {
    }

    /** Everything proved of all runs of the handshake is known of this object. */
    lemma Safe()
      requires Valid()
      ensures S.Inv(model)
    {
      S.InitHasInv();
      S.RunKeepsInv(S.Init(), trace);
    }

    // ---- called from the main thread and the exit handler ----

    /** `AttachWorker`, when the lock is free: attaching a worker twice changes nothing. */
    method AttachWorker(worker: nat)
      requires Valid() && mainAt.Attaching? && !workersLocked
      modifies `workers, `trace, `model
      ensures Valid() && Did(S.Attach(worker)) && workers == old(workers) + {worker}
    {
      hide S.Next, S.Enabled, S.Run, S.Valid, S.Inv;
      hide E.Next, E.Enabled, E.Run, E.Valid, E.Waits, Threads.Thread.Agrees, Threads.Thread.History;
      AttachEffect(model, worker);
      workers := workers + {worker};
      Record(S.Attach(worker));
    }

    /** `RequestShutdown`, any number of times. */
    method RequestShutdown()
      requires Valid()
      modifies `shutdownInitiateSignal, `trace, `model
      ensures Valid() && Did(S.Signal(shutdownInitiateSignal))
      ensures 1 <= shutdownInitiateSignal <= old(shutdownInitiateSignal) + 1
    {
      hide S.Next, S.Enabled, S.Run, S.Valid, S.Inv;
      hide E.Next, E.Enabled, E.Run, E.Valid, E.Waits, Threads.Thread.Agrees, Threads.Thread.History;
      var to: nat :| 1 <= to <= shutdownInitiateSignal + 1;
      SignalEffect(model, to);
      shutdownInitiateSignal := to;
      Record(S.Signal(to));
    }

    /** The two waits of `WaitForShutdown` and the end of the attach loop; a semaphore at zero blocks. */
    method WaitStep() returns (moved: bool)
      requires Valid() && !S.MainMoves(mainAt)
      modifies `shutdownInitiateSignal, `shutdownInitiatedSignal, `mainAt, `trace, `model
      ensures Valid() && if moved then Did(S.MainStep(1)) else model == old(model) && trace == old(trace)
      ensures moved <==> old(mainAt).Attaching? || (old(mainAt).WaitInitiate? && old(shutdownInitiateSignal) > 0) ||
                         (old(mainAt).WaitInitiated? && old(shutdownInitiatedSignal) > 0)
      ensures moved ==> mainAt == if old(mainAt).Attaching? then S.WaitInitiate
                                  else if old(mainAt).WaitInitiate? then S.Transmit else S.StopCheck
      ensures shutdownInitiateSignal ==
        if moved && old(mainAt).WaitInitiate? then old(shutdownInitiateSignal) - 1 else old(shutdownInitiateSignal)
      ensures shutdownInitiatedSignal ==
        if moved && old(mainAt).WaitInitiated? then old(shutdownInitiatedSignal) - 1 else old(shutdownInitiatedSignal)
    {
      hide S.Next, S.Enabled, S.Run, S.Valid, S.Inv;
      hide E.Next, E.Enabled, E.Run, E.Valid, E.Waits, Threads.Thread.Agrees, Threads.Thread.History;
      WaitEffect(model);
      moved := true;
      if mainAt.Attaching? {
        mainAt := S.WaitInitiate;
      } else if mainAt.WaitInitiate? && shutdownInitiateSignal > 0 {
        mainAt, shutdownInitiateSignal := S.Transmit, shutdownInitiateSignal - 1;
      } else if mainAt.WaitInitiated? && shutdownInitiatedSignal > 0 {
        mainAt, shutdownInitiatedSignal := S.StopCheck, shutdownInitiatedSignal - 1;
      } else {
        return false;
      }
      Record(S.MainStep(1));
    }

    /** Main's `TransmitEvent(Shutdown)` passes the check. */
    method BeginTransmit() returns (ghost to: nat)
      requires Valid() && mainAt.Transmit?
      modifies `mainAt, `trace, `model, base, base.notifier
      ensures Valid() && Did(S.MainStep(to)) && Quiet()
      ensures mainAt.SendSection? && S.MAIN in base.callers && base.callers[S.MAIN] == C.WantsSend(Event.Shutdown)
    {
      hide S.Next, S.Enabled, S.Run, S.Valid, S.Inv;
      hide E.Next, E.Enabled, E.Run, E.Valid, E.Waits, Threads.Thread.Agrees, Threads.Thread.History;
      PlaceIsKnown();
      to := 1;
      base.TransmitEvent(S.MAIN, Event.Shutdown, false);
      MainEffect(model, to);
      mainAt := S.SendSection;
      Record(S.MainStep(to));
    }

    /** Its locked section. */
    method TransmitSection() returns (ghost to: nat)
      requires Valid() && mainAt.SendSection?
      modifies `mainAt, `trace, `model, base, base.notifier
      ensures Valid() && Did(S.MainStep(to)) && Quiet()
      ensures base.notifier.rxDisconnected == old(base.notifier.rxDisconnected)
      ensures if base.notifier.rxDisconnected then mainAt.WaitInitiated? && base.notifier.queue == old(base.notifier.queue)
              else mainAt.SendRelease? && base.notifier.queue == old(base.notifier.queue) + [Event.Shutdown]
    {
      hide S.Next, S.Enabled, S.Run, S.Valid, S.Inv;
      hide E.Next, E.Enabled, E.Run, E.Valid, E.Waits, Threads.Thread.Agrees, Threads.Thread.History;
      PlaceIsKnown();
      to := 1;
      base.SectionStep(S.MAIN);
      MainEffect(model, to);
      mainAt := if base.notifier.rxDisconnected then S.WaitInitiated else S.SendRelease;
      Record(S.MainStep(to));
    }

    /** Its release. */
    method TransmitRelease() returns (ghost to: nat)
      requires Valid() && mainAt.SendRelease?
      modifies `mainAt, `trace, `model, base, base.notifier
      ensures Valid() && Did(S.MainStep(to)) && Quiet()
      ensures mainAt.WaitInitiated? && base.notifier.notify > 0
    {
      hide S.Next, S.Enabled, S.Run, S.Valid, S.Inv;
      hide E.Next, E.Enabled, E.Run, E.Valid, E.Waits, Threads.Thread.Agrees, Threads.Thread.History;
      PlaceIsKnown();
      base.ReleaseStep(S.MAIN);
      to := base.notifier.notify;
      MainEffect(model, to);
      mainAt := S.WaitInitiated;
      Record(S.MainStep(to));
    }

    /** The next step of main's `TransmitEvent(Shutdown)` on the inherited thread. */
    method TransmitStep() returns (ghost to: nat)
      requires Valid() && (mainAt.Transmit? || mainAt.SendSection? || mainAt.SendRelease?)
      modifies `mainAt, `trace, `model, base, base.notifier
      ensures Valid() && Did(S.MainStep(to)) && Quiet()
      ensures old(mainAt).Transmit? ==>
        mainAt.SendSection? && S.MAIN in base.callers && base.callers[S.MAIN] == C.WantsSend(Event.Shutdown)
      ensures old(mainAt).SendSection? ==>
        if base.notifier.rxDisconnected then mainAt.WaitInitiated? && base.notifier.queue == old(base.notifier.queue)
        else mainAt.SendRelease? && base.notifier.queue == old(base.notifier.queue) + [Event.Shutdown]
      ensures old(mainAt).SendRelease? ==> mainAt.WaitInitiated? && base.notifier.notify > 0
    {
      hide S.Next, S.Enabled, S.Run, S.Valid, S.Inv;
      hide E.Next, E.Enabled, E.Run, E.Valid, E.Waits, Threads.Thread.Agrees, Threads.Thread.History;
      hide OwnFields;
      if mainAt.Transmit? {
        to := BeginTransmit();
      } else if mainAt.SendSection? {
        to := TransmitSection();
      } else {
        to := TransmitRelease();
      }
    }

    /** Main's `Stop` looks at `m_stopping`. */
    method CheckStop() returns (ghost to: nat)
      requires Valid() && mainAt.StopCheck?
      modifies `mainAt, `trace, `model, base, base.notifier
      ensures Valid() && Did(S.MainStep(to)) && Quiet()
      ensures mainAt == if old(base.stopping) then S.Past else S.StopStore
    {
      hide S.Next, S.Enabled, S.Run, S.Valid, S.Inv;
      hide E.Next, E.Enabled, E.Run, E.Valid, E.Waits, Threads.Thread.Agrees, Threads.Thread.History;
      PlaceIsKnown();
      to := 1;
      var proceed := base.StopCheckStep(S.MAIN);
      MainEffect(model, to);
      mainAt := if proceed then S.StopStore else S.Past;
      Record(S.MainStep(to));
    }

    /** It stores true. */
    method StoreStop() returns (ghost to: nat)
      requires Valid() && mainAt.StopStore?
      modifies `mainAt, `trace, `model, base, base.notifier
      ensures Valid() && Did(S.MainStep(to)) && Quiet()
      ensures mainAt.StopSection? && base.stopping
    {
      hide S.Next, S.Enabled, S.Run, S.Valid, S.Inv;
      hide E.Next, E.Enabled, E.Run, E.Valid, E.Waits, Threads.Thread.Agrees, Threads.Thread.History;
      PlaceIsKnown();
      to := 1;
      base.StopStoreStep(S.MAIN);
      MainEffect(model, to);
      mainAt := S.StopSection;
      Record(S.MainStep(to));
    }

    /** Its locked section. */
    method StopFlush() returns (ghost to: nat)
      requires Valid() && mainAt.StopSection?
      modifies `mainAt, `trace, `model, base, base.notifier
      ensures Valid() && Did(S.MainStep(to)) && Quiet()
      ensures base.notifier.rxDisconnected == old(base.notifier.rxDisconnected)
      ensures if base.notifier.rxDisconnected then mainAt.Past? && base.notifier.queue == old(base.notifier.queue)
              else mainAt.StopRelease? && base.notifier.queue == [Exit]
    {
      hide S.Next, S.Enabled, S.Run, S.Valid, S.Inv;
      hide E.Next, E.Enabled, E.Run, E.Valid, E.Waits, Threads.Thread.Agrees, Threads.Thread.History;
      PlaceIsKnown();
      to := 1;
      base.SectionStep(S.MAIN);
      MainEffect(model, to);
      mainAt := if base.notifier.rxDisconnected then S.Past else S.StopRelease;
      Record(S.MainStep(to));
    }

    /** Its release. */
    method ReleaseStop() returns (ghost to: nat)
      requires Valid() && mainAt.StopRelease?
      modifies `mainAt, `trace, `model, base, base.notifier
      ensures Valid() && Did(S.MainStep(to)) && Quiet()
      ensures mainAt.Past? && base.notifier.notify > 0
    {
      hide S.Next, S.Enabled, S.Run, S.Valid, S.Inv;
      hide E.Next, E.Enabled, E.Run, E.Valid, E.Waits, Threads.Thread.Agrees, Threads.Thread.History;
      PlaceIsKnown();
      base.ReleaseStep(S.MAIN);
      to := base.notifier.notify;
      MainEffect(model, to);
      mainAt := S.Past;
      Record(S.MainStep(to));
    }

    /** The next step of main's `Stop()` on the inherited thread. */
    method StopStep() returns (ghost to: nat)
      requires Valid() && (mainAt.StopCheck? || mainAt.StopStore? || mainAt.StopSection? || mainAt.StopRelease?)
      modifies `mainAt, `trace, `model, base, base.notifier
      ensures Valid() && Did(S.MainStep(to)) && Quiet()
      ensures old(mainAt).StopCheck? ==> mainAt == if old(base.stopping) then S.Past else S.StopStore
      ensures old(mainAt).StopStore? ==> mainAt.StopSection? && base.stopping
      ensures old(mainAt).StopSection? ==>
        if base.notifier.rxDisconnected then mainAt.Past? && base.notifier.queue == old(base.notifier.queue)
        else mainAt.StopRelease? && base.notifier.queue == [Exit]
      ensures old(mainAt).StopRelease? ==> mainAt.Past? && base.notifier.notify > 0
    {
      hide S.Next, S.Enabled, S.Run, S.Valid, S.Inv;
      hide E.Next, E.Enabled, E.Run, E.Valid, E.Waits, Threads.Thread.Agrees, Threads.Thread.History;
      hide OwnFields;
      if mainAt.StopCheck? {
        to := CheckStop();
      } else if mainAt.StopStore? {
        to := StoreStop();
      } else if mainAt.StopSection? {
        to := StopFlush();
      } else {
        to := ReleaseStop();
      }
    }

    lemma PlaceIsKnown()
      requires Valid()
      ensures mainAt.Transmit? || mainAt.StopCheck? ==>
        S.MAIN !in base.callers && S.MAIN !in base.stopChecked && !base.stopping
      ensures mainAt.SendSection? ==>
        S.MAIN in base.callers && base.callers[S.MAIN] == C.WantsSend(Event.Shutdown)
      ensures mainAt.StopSection? ==> S.MAIN in base.callers && base.callers[S.MAIN] == C.WantsFlush(Exit)
      ensures mainAt.SendRelease? || mainAt.StopRelease? ==>
        S.MAIN in base.callers && base.callers[S.MAIN].Releasing?
      ensures mainAt.StopStore? ==> S.MAIN !in base.callers && S.MAIN in base.stopChecked
      ensures model.mgr.stopping == base.stopping && model.mgr.sys.core.disconnected == base.notifier.rxDisconnected
    {
      hide S.Run, S.Valid, E.Run, E.Valid, S.NoExitYet, S.HandlerInv, S.OneShutdown, S.CallsInv, E.Inv;
      Safe();
      MainsPlace(model);
    }

    // ---- between the steps of a handler ----

    /** One step of another thread, if it is possible now. */
    method ForeignStep(a: S.Act) returns (ghost did: seq<S.Act>)
      requires Valid()
      modifies this, base, base.notifier
      ensures Valid() && trace == old(trace) + did && |did| <= 1
      ensures if |did| == 1 then IsForeign(did[0]) && Did(did[0]) else model == old(model)
      ensures Quiet()
    {
      hide S.Next, S.Enabled, S.Run, S.Valid, S.Inv;
      hide E.Next, E.Enabled, E.Run, E.Valid, E.Waits, Threads.Thread.Agrees, Threads.Thread.History;
      did := [];
      match a {
        case Attach(w) =>
          if mainAt.Attaching? && !workersLocked {
            AttachWorker(w);
            did := [a];
          }
        case Signal(_) =>
          RequestShutdown();
          did := [S.Signal(shutdownInitiateSignal)];
        case MainStep(_) =>
          if mainAt.Transmit? || mainAt.SendSection? || mainAt.SendRelease? {
            ghost var to := TransmitStep();
            did := [S.MainStep(to)];
          } else if S.MainMoves(mainAt) {
            ghost var to := StopStep();
            did := [S.MainStep(to)];
          } else {
            var moved := WaitStep();
            did := if moved then [S.MainStep(1)] else [];
          }
        case Timer(act) =>
          did := TimerStep(act);
        case _ =>
      }
    }

    /** A step of the timer thread's `send` of an expiry. */
    method TimerStep(act: E.Act) returns (ghost did: seq<S.Act>)
      requires Valid()
      modifies `trace, `model, base, base.notifier
      ensures Valid() && trace == old(trace) + did && |did| <= 1
      ensures if |did| == 1 then did[0].Timer? && Did(did[0]) else model == old(model)
      ensures Quiet()
      ensures act.Release? && E.TIMER in old(base.callers) && old(base.callers)[E.TIMER].Releasing? ==>
        |did| == 1 && did[0].act.Release?
    {
      hide S.Next, S.Enabled, S.Run, S.Valid, S.Inv;
      hide E.Next, E.Enabled, E.Run, E.Valid, E.Waits, Threads.Thread.Agrees, Threads.Thread.History;
      ghost var move := act;
      match act {
        case Expire(id) =>
          if E.TIMER in base.callers { return []; }
          base.SendExpiry(id);
        case Section(_) =>
          if E.TIMER !in base.callers || base.callers[E.TIMER].Releasing? { return []; }
          base.SectionStep(E.TIMER);
          move := E.Section(E.TIMER);
        case Release(_, _) =>
          if E.TIMER !in base.callers || !base.callers[E.TIMER].Releasing? { return []; }
          base.ReleaseStep(E.TIMER);
          move := E.Release(E.TIMER, base.notifier.notify);
        case _ =>
          return [];
      }
      TimerEffect(model, move);
      Record(S.Timer(move));
      did := [S.Timer(move)];
    }

    method Interfere(acts: seq<S.Act>)
      requires Valid()
      modifies this, base, base.notifier
      ensures Valid() && old(trace) <= trace && Undisturbed(old(model), model) && Quiet()
    {
      hide S.Next, S.Enabled, S.Run, S.Valid, S.Inv;
      hide E.Next, E.Enabled, E.Run, E.Valid, E.Waits, Threads.Thread.Agrees, Threads.Thread.History;
      hide OwnFields;
      for i := 0 to |acts|
        invariant Valid() && old(trace) <= trace && Undisturbed(old(model), model) && Quiet()
      {
        ghost var before, t := model, trace;
        Safe();
        ghost var did := ForeignStep(acts[i]);
        if |did| == 1 {
          ForeignFrame(before, did[0]);
          assert trace[..|t|] == t;
        } else {
          assert trace == t;
        }
      }
    }

    // ---- the manager's own handlers ----

    /** `Starting`: the one timer the manager ever starts. */
    method Starting(id: TimerId)
      requires Valid() && !up && !base.closing && id !in base.issued
      modifies `up, `transmitTimerId, `trace, `model, base
      ensures Valid() && Did(S.Up(id)) && transmitTimerId == id && id in base.timers && up
      ensures Steady(old(model.mgr), model.mgr) && model.handler == old(model.handler) && Quiet()
    {
      hide S.Next, S.Enabled, S.Run, S.Valid, S.Inv;
      hide E.Next, E.Enabled, E.Run, E.Valid, E.Waits, Threads.Thread.Agrees, Threads.Thread.History;
      base.StartTimer(id, "Manager-Transmit");
      StartTimerIsSteady(model.mgr, id);
      up, transmitTimerId := true, id;
      UpEffect(model, id);
      Record(S.Up(id));
    }

    /** The loops over `m_workers`, under the lock; the order is that of the pointers, so any. */
    method CallWorkers(stop: bool, env: Schedule)
      requires Valid() && model.handler == if stop then S.Tearing(workers) else S.SendingTests(workers)
      modifies this, base, base.notifier
      ensures Valid() && old(trace) <= trace && !workersLocked
      ensures model.handler == if stop then S.Initiated else S.NoHandler
      ensures CalledEachOnce(old(calls), calls, workers, stop) && workers == old(workers)
      ensures workersTerminated == old(workersTerminated) && base.model.timers == old(base.model.timers)
      ensures up == old(up) && Steady(old(base.model), base.model) && Quiet()
    {
      hide S.Next, S.Enabled, S.Run, S.Valid, S.Inv;
      hide E.Next, E.Enabled, E.Run, E.Valid, E.Waits, Threads.Thread.Agrees, Threads.Thread.History, CalledEachOnce;
      var todo, i := workers, 0;
      NothingCalled(calls, stop);
      while todo != {}
        invariant Valid() && old(trace) <= trace && todo <= workers == old(workers)
        invariant model.handler == if stop then S.Tearing(todo) else S.SendingTests(todo)
        invariant CalledEachOnce(old(calls), calls, workers - todo, stop)
        invariant workersTerminated == old(workersTerminated) && base.model.timers == old(base.model.timers)
        invariant up == old(up) && Steady(old(base.model), base.model) && Quiet()
        decreases todo
      {
        Interfere(At(env, i));
        Inhabited(todo);
        var worker :| worker in todo;
        ghost var t := trace;
        CallOneMore(old(calls), calls, workers - todo, stop, worker);
        CallWorker(worker, stop);
        assert trace[..|t|] == t;
        assert workers - todo + {worker} == workers - (todo - {worker});
        todo, i := todo - {worker}, i + 1;
      }
      assert workers - {} == workers;
      UnlockStep();
    }

    lemma NothingCalled(calls: seq<S.WorkerCall>, stop: bool)
      ensures CalledEachOnce(calls, calls, workers - workers, stop)
    {
    }

    /** One round of either loop. */
    method CallWorker(worker: nat, stop: bool)
      requires Valid() && (if stop then model.handler.Tearing? else model.handler.SendingTests?)
      requires worker in model.handler.todo
      modifies `calls, `trace, `model
      ensures Valid() && Did(S.WorkerStep(worker))
      ensures calls == old(calls) + [if stop then S.StopCall(worker) else S.Test(worker)]
      ensures model.handler == if stop then S.Tearing(old(model.handler.todo) - {worker})
                               else S.SendingTests(old(model.handler.todo) - {worker})
    {
      hide S.Next, S.Enabled, S.Run, S.Valid, S.Inv;
      hide E.Next, E.Enabled, E.Run, E.Valid, E.Waits, Threads.Thread.Agrees, Threads.Thread.History;
      WorkerEffect(model, worker);
      calls := calls + [if stop then S.StopCall(worker) else S.Test(worker)];
      Record(S.WorkerStep(worker));
    }

    method UnlockStep()
      requires Valid() && (model.handler == S.SendingTests({}) || model.handler == S.Tearing({}))
      modifies `workersLocked, `trace, `model
      ensures Valid() && Did(S.Unlock) && !workersLocked
      ensures model.handler == if old(model.handler).Tearing? then S.Initiated else S.NoHandler
    {
      hide S.Next, S.Enabled, S.Run, S.Valid, S.Inv;
      hide E.Next, E.Enabled, E.Run, E.Valid, E.Waits, Threads.Thread.Agrees, Threads.Thread.History;
      UnlockEffect(model);
      workersLocked := false;
      Record(S.Unlock);
    }

    /** `SendEventsToWorkers`, the callback of the transmit timer. */
    method SendEventsToWorkers(ghost id: TimerId, ghost to: nat, env: Schedule)
      requires Handling(Expired(id), to) && id in model.mgr.timers
      modifies this, base, base.notifier
      ensures Valid() && old(trace) <= trace && model.handler.NoHandler?
      ensures workersTerminated == old(workersTerminated) && workers == old(workers)
      ensures if workersTerminated then calls == old(calls) else CalledEachOnce(old(calls), calls, workers, false)
      ensures forall w ::
        multiset(calls)[S.Test(w)] ==
        multiset(old(calls))[S.Test(w)] + if w in workers && !workersTerminated then 1 else 0
      ensures up == old(up) && Steady(old(base.model), base.model) && Quiet()
    {
      hide S.Next, S.Enabled, S.Run, S.Valid, S.Inv;
      hide E.Next, E.Enabled, E.Run, E.Valid, E.Waits, Threads.Thread.Agrees, Threads.Thread.History, CalledEachOnce;
      NoHandlerYet(model, to);
      ExpiryEffect(model, to, id);
      Record(S.Dispatch(to));
      if workersTerminated {
        return;
      }
      workersLocked := true;
      ghost var t := trace;
      CallWorkers(false, env);
      CallsMade(old(calls), calls, workers, false);
      assert trace[..|t|] == t;
    }

    /** The part of `TeardownWorkers` before its loop: take note, and stop the transmit timer. */
    method BeginTeardown(ghost to: nat)
      requires Handling(Event.Shutdown, to) && !workersTerminated
      modifies `workersTerminated, `workersLocked, `trace, `model, base
      ensures Valid() && Did(S.Dispatch(to)) && model.handler == S.Tearing(workers) && workersTerminated
      ensures transmitTimerId !in base.timers && Steady(old(base.model), base.model) && Quiet()
    {
      hide S.Next, S.Enabled, S.Run, S.Valid, S.Inv;
      hide E.Next, E.Enabled, E.Run, E.Valid, E.Waits, Threads.Thread.Agrees, Threads.Thread.History;
      NoHandlerYet(model, to);
      ShutdownEffect(model, to);
      DispatchKeepsTimers(model.mgr, to);
      TimersAgree();
      workersTerminated, workersLocked := true, true;
      StopTimerIsSteady(base.model, transmitTimerId);
      base.StopTimer(transmitTimerId);
      Record(S.Dispatch(to));
    }

    /** `TeardownWorkers`: once only; first the transmit timer, then every worker. */
    method TeardownWorkers(ghost to: nat, env: Schedule)
      requires Handling(Event.Shutdown, to)
      modifies this, base, base.notifier
      ensures Valid() && old(trace) <= trace && model.handler.Initiated? && workersTerminated && workers == old(workers)
      ensures if old(workersTerminated) then calls == old(calls)
        else CalledEachOnce(old(calls), calls, workers, true) && old(transmitTimerId) !in base.timers
      ensures forall w ::
        multiset(calls)[S.StopCall(w)] ==
        multiset(old(calls))[S.StopCall(w)] + if w in workers && !old(workersTerminated) then 1 else 0
      ensures up == old(up) && Steady(old(base.model), base.model) && Quiet()
    {
      hide S.Next, S.Enabled, S.Run, S.Valid, S.Inv;
      hide E.Next, E.Enabled, E.Run, E.Valid, E.Waits, Threads.Thread.Agrees, Threads.Thread.History, CalledEachOnce;
      if workersTerminated {
        NoHandlerYet(model, to);
        ShutdownEffect(model, to);
        Record(S.Dispatch(to));
        return;
      }
      BeginTeardown(to);
      ghost var t := trace;
      TimersAgree();
      CallWorkers(true, env);
      CallsMade(old(calls), calls, workers, true);
      TimersAgree();
      assert trace[..|t|] == t;
    }

    /** `InitiateShutdown`: tear down, then tell main. */
    method InitiateShutdown(ghost to: nat, env: Schedule)
      requires Handling(Event.Shutdown, to)
      modifies this, base, base.notifier
      ensures Valid() && old(trace) <= trace && model.handler.NoHandler?
      ensures workersTerminated && shutdownInitiatedSignal == 1 && workers == old(workers)
      ensures if old(workersTerminated) then calls == old(calls)
        else CalledEachOnce(old(calls), calls, workers, true) && old(transmitTimerId) !in base.timers
      ensures forall w ::
        multiset(calls)[S.StopCall(w)] ==
        multiset(old(calls))[S.StopCall(w)] + if w in workers && !old(workersTerminated) then 1 else 0
      ensures up == old(up) && Steady(old(base.model), base.model) && Quiet()
    {
      hide S.Next, S.Enabled, S.Run, S.Valid, S.Inv;
      hide E.Next, E.Enabled, E.Run, E.Valid, E.Waits, Threads.Thread.Agrees, Threads.Thread.History, CalledEachOnce;
      TeardownWorkers(to, env);
      Safe();
      NotSignalledYet(model);
      ghost var t := trace;
      var signal: nat :| 1 <= signal <= shutdownInitiatedSignal + 1;
      DoneEffect(model, signal);
      shutdownInitiatedSignal := signal;
      Record(S.SignalDone(signal));
      assert trace[..|t|] == t;
    }

    /** One round of the inherited dispatch loop: `HandleEvent`, the timer callback, or what `Thread` itself does with an
      Exit or an empty pointer. Events meant for someone else are only logged. */
    method HandleNext(e: Event, env: Schedule)
      requires Valid() && up && model.handler.NoHandler? && model.mgr.phase.Running? && Front(model, e)
      modifies this, base, base.notifier
      ensures Valid() && old(trace) <= trace && model.handler.NoHandler?
      ensures workersTerminated == (old(workersTerminated) || e.Shutdown?) && workers == old(workers)
      ensures e.Shutdown? ==> !old(workersTerminated) && shutdownInitiatedSignal > 0
      ensures e.Shutdown? ==>
        CalledEachOnce(old(calls), calls, workers, true) && old(transmitTimerId) !in base.timers
      ensures e.Expired? && e.id in old(base.timers) && !old(workersTerminated) ==>
        CalledEachOnce(old(calls), calls, workers, false)
      ensures !e.Shutdown? && (e.Expired? ==> e.id !in old(base.timers) || old(workersTerminated)) ==>
        calls == old(calls)
      ensures up && model.mgr.phase.Running? && model.mgr.sys.delivered == old(model.mgr.sys.delivered) + [e]
      ensures model.mgr.sys.rx == C.Passing(old(model.mgr.sys.rx.rest)[1..], old(model.mgr.sys.rx.left))
      ensures model.mgr.stopRequested == (old(model.mgr.stopRequested) || e.Exit?) && Quiet()
    {
      hide S.Next, S.Enabled, S.Run, S.Valid, S.Inv;
      hide E.Next, E.Enabled, E.Run, E.Valid, E.Waits, Threads.Thread.Agrees, Threads.Thread.History, CalledEachOnce;
      Safe();
      TimersAgree();
      DeliverIsOn(model);
      ghost var t := trace;
      ghost var to := base.DispatchStep(e);
      CanDispatch(model, to);
      DispatchKeepsTimers(model.mgr, to);
      TimersAgree();
      if e.Shutdown? {
        ShutdownIsHandledOnce(model, to);
        InitiateShutdown(to, env);
      } else if e.Expired? && e.id in base.timers {
        SendEventsToWorkers(e.id, to, env);
      } else {
        IgnoreEvent(e, to);
      }
      assert trace[..|t|] == t;
    }

    /** An event that the manager does nothing about. */
    ghost method IgnoreEvent(e: Event, to: nat)
      requires Handling(e, to) && !e.Shutdown? && (e.Expired? ==> e.id !in model.mgr.timers)
      modifies `trace, `model
      ensures Valid() && Did(S.Dispatch(to)) && model.handler.NoHandler?
    {
      hide S.Next, S.Enabled, S.Run, S.Valid, S.Inv;
      hide E.Next, E.Enabled, E.Run, E.Valid, E.Waits, Threads.Thread.Agrees, Threads.Thread.History;
      NoHandlerYet(model, to);
      if e.Expired? {
        ExpiryEffect(model, to, e.id);
      } else {
        OtherEffect(model, to, e);
      }
      Record(S.Dispatch(to));
    }

    // ---- the inherited loop ----

    /** The inherited thread has just taken the step `act` of its loop. */
    ghost method LoopStepTaken(act: E.Act)
      requires History() && OwnFields() && base.Valid() && up && model.handler.NoHandler? && S.LoopMove(act)
      requires E.Enabled(model.mgr, act) && base.model == E.Next(model.mgr, act)
      modifies `trace, `model
      ensures Valid() && Did(S.Loop(act)) && model.handler.NoHandler?
    {
      hide S.Next, S.Enabled, S.Run, S.Valid, S.Inv;
      hide E.Next, E.Enabled, E.Run, E.Valid, E.Waits, Threads.Thread.Agrees, Threads.Thread.History;
      LoopEffect(model, act);
      Record(S.Loop(act));
    }

    method AcquireStep(expired: bool) returns (acquired: bool)
      requires Valid() && Looping() && model.mgr.sys.rx.Idle? && !model.mgr.stopRequested
      modifies `trace, `model, base, base.notifier
      ensures Valid() && model.handler.NoHandler? && Did(S.Loop(if acquired then E.Acquire else E.Timeout))
      ensures acquired == (!expired && old(base.notifier.notify) > 0) && base.entered
      ensures base.waits == old(base.waits) + [E.Wait(old(base.notifier.notify), acquired)]
      ensures model.mgr.sys.rx == if acquired then C.Holding else C.Idle
      ensures model.mgr.phase == old(model.mgr.phase) && model.mgr.stopRequested == old(model.mgr.stopRequested)
      ensures model.mgr.sys.delivered == old(model.mgr.sys.delivered)
    {
      hide S.Next, S.Enabled, S.Run, S.Valid, S.Inv;
      hide E.Next, E.Enabled, E.Run, E.Valid, E.Waits, Threads.Thread.Agrees, Threads.Thread.History;
      TimersAgree();
      acquired := base.AcquireStep(expired);
      TimersAgree();
      LoopStepTaken(if acquired then E.Acquire else E.Timeout);
    }

    method TakeStep() returns (events: seq<Event>, leftInQueue: nat)
      requires Valid() && up && model.handler.NoHandler? && model.mgr.sys.rx.Holding?
      modifies `trace, `model, base, base.notifier
      ensures Valid() && model.handler.NoHandler? && Did(S.Loop(E.Take)) && |events| <= E.MAX_EVENTS_PER_LOOP && Quiet()
      ensures events + base.notifier.queue == old(base.notifier.queue) && leftInQueue == |base.notifier.queue|
      ensures |events| <= 10 && (|events| < 10 ==> leftInQueue == 0)
      ensures events == old(model.mgr.sys.core.queue)[..BatchSize(old(model.mgr.sys.core), E.MAX_EVENTS_PER_LOOP)]
      ensures model.mgr.sys.rx == if |events| == 0 then C.Idle else C.Passing(events, leftInQueue)
      ensures model.mgr.phase == old(model.mgr.phase) && model.mgr.stopRequested == old(model.mgr.stopRequested)
      ensures model.mgr.sys.delivered == old(model.mgr.sys.delivered)
    {
      hide S.Next, S.Enabled, S.Run, S.Valid, S.Inv;
      hide E.Next, E.Enabled, E.Run, E.Valid, E.Waits, Threads.Thread.Agrees, Threads.Thread.History;
      TimersAgree();
      events, leftInQueue := base.TakeStep();
      TimersAgree();
      LoopStepTaken(E.Take);
    }

    method EndPassStep(leftInQueue: nat) returns (ghost to: nat)
      requires Valid() && up && model.handler.NoHandler? && model.mgr.sys.rx == C.Passing([], leftInQueue)
      modifies `trace, `model, base, base.notifier
      ensures Valid() && model.handler.NoHandler? && Did(S.Loop(E.EndPass(to))) && model.mgr.sys.rx.Idle? && Quiet()
      ensures if leftInQueue > 0 then 1 <= base.notifier.notify <= old(base.notifier.notify) + 1
              else base.notifier.notify == old(base.notifier.notify)
      ensures model.mgr.phase == old(model.mgr.phase) && model.mgr.stopRequested == old(model.mgr.stopRequested)
      ensures model.mgr.sys.delivered == old(model.mgr.sys.delivered)
    {
      hide S.Next, S.Enabled, S.Run, S.Valid, S.Inv;
      hide E.Next, E.Enabled, E.Run, E.Valid, E.Waits, Threads.Thread.Agrees, Threads.Thread.History;
      TimersAgree();
      to := base.EndPassStep(leftInQueue);
      TimersAgree();
      LoopStepTaken(E.EndPass(to));
    }

    method LeaveStep()
      requires Valid() && Looping() && model.mgr.sys.rx.Idle? && model.mgr.stopRequested
      modifies `trace, `model, base, base.notifier
      ensures Valid() && model.handler.NoHandler? && Did(S.Loop(E.Leave)) && model.mgr.sys.rx.Dropped? && Quiet()
      ensures base.notifier.rxDisconnected
      ensures model.mgr.phase == old(model.mgr.phase) && model.mgr.stopRequested
      ensures model.mgr.sys.delivered == old(model.mgr.sys.delivered)
    {
      hide S.Next, S.Enabled, S.Run, S.Valid, S.Inv;
      hide E.Next, E.Enabled, E.Run, E.Valid, E.Waits, Threads.Thread.Agrees, Threads.Thread.History;
      TimersAgree();
      base.LeaveStep();
      TimersAgree();
      LoopStepTaken(E.Leave);
    }

    /** `ProcessEvents` with the manager's handlers. A pass whose batch held the Shutdown has torn the workers down, each
      stopped exactly once, and main can go on or has gone on already. */
    method ProcessEvents(pass: Pass) returns (acquired: bool, batch: seq<Event>)
      requires Valid() && Looping() && model.mgr.sys.rx.Idle? && !model.mgr.stopRequested
      modifies this, base, base.notifier
      ensures Valid() && Looping() && old(trace) <= trace && model.mgr.sys.rx.Idle?
      ensures acquired == (!pass.expired && old(base.notifier.notify) > 0) && (!acquired ==> batch == [])
      ensures base.waits == old(base.waits) + [E.Wait(old(base.notifier.notify), acquired)]
      ensures model.mgr.sys.delivered == old(model.mgr.sys.delivered) + batch && |batch| <= 10
      ensures model.mgr.stopRequested <==> Exit in batch
      ensures workersTerminated == (old(workersTerminated) || Event.Shutdown in batch)
      ensures PassCalls(old(calls), calls, workers, old(workersTerminated), Event.Shutdown in batch)
      ensures Event.Shutdown in batch ==> !old(workersTerminated)
      ensures workersTerminated ==> shutdownInitiatedSignal > 0 || S.AfterWait(mainAt)
    {
      hide S.Next, S.Enabled, S.Run, S.Valid, S.Inv;
      hide E.Next, E.Enabled, E.Run, E.Valid, E.Waits, Threads.Thread.Agrees, Threads.Thread.History;
      hide PassCalls;
      batch := [];
      acquired := AcquireStep(pass.expired);
      if acquired {
        ghost var t := trace;
        batch := TakeAndDispatch(pass);
        assert trace[..|t|] == t;
      } else {
        NothingYet(calls);
      }
      Safe();
      MainMayGoOn(model);
    }

    /** A pass from the permit on. */
    method TakeAndDispatch(pass: Pass) returns (batch: seq<Event>)
      requires Valid() && Looping() && model.mgr.sys.rx.Holding? && !model.mgr.stopRequested
      modifies this, base, base.notifier
      ensures Valid() && Looping() && old(trace) <= trace && model.mgr.sys.rx.Idle?
      ensures model.mgr.sys.delivered == old(model.mgr.sys.delivered) + batch && |batch| <= 10
      ensures model.mgr.stopRequested <==> Exit in batch
      ensures workersTerminated == (old(workersTerminated) || Event.Shutdown in batch)
      ensures PassCalls(old(calls), calls, workers, old(workersTerminated), Event.Shutdown in batch)
      ensures Event.Shutdown in batch ==> !old(workersTerminated)
      ensures Quiet()
    {
      hide S.Next, S.Enabled, S.Run, S.Valid, S.Inv;
      hide E.Next, E.Enabled, E.Run, E.Valid, E.Waits, Threads.Thread.Agrees, Threads.Thread.History;
      hide PassCalls;
      Interfere(pass.taking);
      var leftInQueue;
      ghost var u := trace;
      batch, leftInQueue := TakeStep();
      assert trace[..|u|] == u;
      if |batch| == 0 {
        NothingYet(calls);
      } else {
        DispatchBatch(batch, leftInQueue, pass.rounds);
        ghost var ws := workers;
        Interfere(pass.ending);
        OthersAttachInTime(old(calls), calls, ws, workers, old(workersTerminated), Event.Shutdown in batch);
        u := trace;
        ghost var to := EndPassStep(leftInQueue);
        assert trace[..|u|] == u;
      }
    }

    /** The loop is running and no handler is. */
    ghost predicate Looping()
      reads this, base
    {
      up && base.entered && model.handler.NoHandler? && model.mgr.phase.Running?
    }

    lemma NothingYet(calls: seq<S.WorkerCall>)
      ensures PassCalls(calls, calls, workers, workersTerminated, false)
    {
    }

    /** The dispatch loop: every event of the batch is handled, in order, and it does not stop at an Exit. */
    method DispatchBatch(batch: seq<Event>, leftInQueue: nat, rounds: seq<Round>)
      requires Valid() && Looping() && model.mgr.sys.rx == C.Passing(batch, leftInQueue) && !model.mgr.stopRequested
      modifies this, base, base.notifier
      ensures Valid() && Looping() && old(trace) <= trace && model.mgr.sys.rx == C.Passing([], leftInQueue)
      ensures model.mgr.sys.delivered == old(model.mgr.sys.delivered) + batch
      ensures model.mgr.stopRequested <==> Exit in batch
      ensures workersTerminated == (old(workersTerminated) || Event.Shutdown in batch)
      ensures PassCalls(old(calls), calls, workers, old(workersTerminated), Event.Shutdown in batch)
      ensures Event.Shutdown in batch ==> !old(workersTerminated)
      ensures Quiet()
    {
      hide S.Next, S.Enabled, S.Run, S.Valid, S.Inv;
      hide E.Next, E.Enabled, E.Run, E.Valid, E.Waits, Threads.Thread.Agrees, Threads.Thread.History;
      hide PassCalls, CalledEachOnce;
      NothingYet(calls);
      for i := 0 to |batch|
        invariant Valid() && Looping() && old(trace) <= trace
        invariant model.mgr.sys.rx == C.Passing(batch[i..], leftInQueue)
        invariant model.mgr.sys.delivered == old(model.mgr.sys.delivered) + batch[..i]
        invariant model.mgr.stopRequested <==> Exit in batch[..i]
        invariant workersTerminated == (old(workersTerminated) || Event.Shutdown in batch[..i])
        invariant PassCalls(old(calls), calls, workers, old(workersTerminated), Event.Shutdown in batch[..i])
        invariant Event.Shutdown in batch[..i] ==> !old(workersTerminated)
        invariant Quiet()
      {
        ghost var ws := workers;
        Interfere(RoundAt(rounds, i).before);
        OthersAttachInTime(old(calls), calls, ws, workers, old(workersTerminated), Event.Shutdown in batch[..i]);
        ghost var before := calls;
        HandleNext(batch[i], RoundAt(rounds, i).within);
        PassGoesOn(old(calls), before, calls, workers, old(workersTerminated), Event.Shutdown in batch[..i], batch[i]);
        NextOf(old(model.mgr.sys.delivered), batch, i, Exit);
        NextOf(old(model.mgr.sys.delivered), batch, i, Event.Shutdown);
      }
    }

    /** `Execute` with the manager's handlers: `batches` are those of the passes made, and none is taken after one that
      held an Exit. */
    method Execute(passes: seq<Pass>) returns (finished: bool, batches: seq<seq<Event>>)
      requires Valid() && Looping() && model.mgr.sys.rx.Idle? && !model.mgr.stopRequested
      modifies this, base, base.notifier
      ensures Valid() && Looping() && old(trace) <= trace && finished == model.mgr.stopRequested
      ensures if finished then model.mgr.sys.rx.Dropped? else model.mgr.sys.rx.Idle?
      ensures model.mgr.sys.delivered == old(model.mgr.sys.delivered) + Flat(batches)
      ensures |batches| <= |passes| && (!finished ==> |batches| == |passes|)
      ensures finished <==> |batches| > 0 && Exit in batches[|batches| - 1]
      ensures forall i :: 0 <= i < |batches| - 1 ==> Exit !in batches[i]
      ensures |base.waits| == |old(base.waits)| + |batches| &&
        forall i :: |old(base.waits)| <= i < |base.waits| ==>
          base.waits[i].acquired == (!passes[i - |old(base.waits)|].expired && base.waits[i].permits > 0)
      ensures workersTerminated ==> shutdownInitiatedSignal > 0 || S.AfterWait(mainAt)
    {
      hide S.Next, S.Enabled, S.Run, S.Valid, S.Inv;
      hide E.Next, E.Enabled, E.Run, E.Valid, E.Waits, Threads.Thread.Agrees, Threads.Thread.History;
      batches := PassUntilStop(passes);
      TimersAgree();
      finished := base.stopRequested;
      if finished {
        ghost var t := trace;
        LeaveStep();
        assert trace[..|t|] == t;
      }
      Safe();
      MainMayGoOn(model);
    }

    /** The loop of `Execute`. */
    method PassUntilStop(passes: seq<Pass>) returns (batches: seq<seq<Event>>)
      requires Valid() && Looping() && model.mgr.sys.rx.Idle? && !model.mgr.stopRequested
      modifies this, base, base.notifier
      ensures Valid() && Looping() && old(trace) <= trace && model.mgr.sys.rx.Idle?
      ensures model.mgr.sys.delivered == old(model.mgr.sys.delivered) + Flat(batches)
      ensures |batches| <= |passes| && (!model.mgr.stopRequested ==> |batches| == |passes|)
      ensures Threads.StopsAtExit(batches, model.mgr.stopRequested)
      ensures WaitedFor(old(base.waits), base.waits, passes, |batches|)
    {
      batches := [];
      assert Threads.StopsAtExit(batches, model.mgr.stopRequested) && Flat(batches) == [];
      assert WaitedFor(base.waits, base.waits, passes, 0);
      hide *;
      StopFlag();
      while !base.stopRequested && |batches| < |passes|
        invariant |batches| <= |passes| && Valid() && Looping() && old(trace) <= trace && model.mgr.sys.rx.Idle?
        invariant model.mgr.sys.delivered == old(model.mgr.sys.delivered) + Flat(batches)
        invariant base.stopRequested == model.mgr.stopRequested
        invariant Threads.StopsAtExit(batches, model.mgr.stopRequested)
        invariant WaitedFor(old(base.waits), base.waits, passes, |batches|)
      {
        ghost var before, permits := base.waits, base.notifier.notify;
        var acquired, batch := ProcessEvents(passes[|batches|]);
        WaitedOnce(old(base.waits), before, passes, |batches|, E.Wait(permits, acquired));
        StopFlag();
        FlatSnoc(old(model.mgr.sys.delivered), batches, batch);
        Threads.StopsAtExitOn(batches, batch);
        batches := batches + [batch];
      }
    }

    lemma StopFlag()
      requires Valid()
      ensures base.stopRequested == model.mgr.stopRequested
    {
      TimersAgree();
    }

    /** The final loop of `Enter`, over the timers left, and its end. */
    method StopRemainingTimers()
      requires Valid() && Looping() && model.mgr.sys.rx.Dropped?
      modifies `trace, `model, base, base.notifier
      ensures Valid() && old(trace) <= trace && model.mgr.phase.Ended? && model.handler.NoHandler?
      ensures multiset(base.stopsSent) == multiset(base.addsSent) == multiset(base.issued)
      ensures model.mgr.stopRequested == old(model.mgr.stopRequested) && Quiet() && !base.running
      ensures model.mgr.sys.delivered == old(model.mgr.sys.delivered)
    {
      hide S.Next, S.Enabled, S.Run, S.Valid, S.Inv;
      hide E.Next, E.Enabled, E.Run, E.Valid, E.Waits, Threads.Thread.Agrees, Threads.Thread.History;
      TimersAgree();
      base.BeginCloseStep();
      LoopStepTaken(E.BeginClose);
      var todo := base.timers.Keys;
      while todo != {}
        invariant Valid() && up && model.handler.NoHandler? && old(trace) <= trace && base.closing && Quiet()
        invariant model.mgr.phase == E.Closing(todo) && base.stopRequested == old(base.stopRequested)
        invariant model.mgr.sys.delivered == old(model.mgr.sys.delivered)
        decreases todo
      {
        Inhabited(todo);
        var id :| id in todo;
        CloseTimer(id);
        todo := todo - {id};
      }
      EndLoop();
    }

    /** The final loop reaches the timer `id`. */
    method CloseTimer(id: TimerId)
      requires Valid() && up && model.handler.NoHandler? && model.mgr.phase.Closing? && id in model.mgr.phase.todo
      modifies `trace, `model, base
      ensures Valid() && old(trace) <= trace && model.mgr.phase == E.Closing(old(model.mgr.phase.todo) - {id})
      ensures model.handler == old(model.handler) && Quiet() && base.closing == old(base.closing)
      ensures base.stopRequested == old(base.stopRequested)
      ensures model.mgr.sys.delivered == old(model.mgr.sys.delivered)
    {
      hide S.Next, S.Enabled, S.Run, S.Valid, S.Inv;
      hide E.Next, E.Enabled, E.Run, E.Valid, E.Waits, Threads.Thread.Agrees, Threads.Thread.History;
      base.CloseStep(id);
      LoopStepTaken(E.CloseTimer(id));
    }

    method EndLoop()
      requires Valid() && up && model.handler.NoHandler? && model.mgr.phase == E.Closing({})
      modifies `trace, `model, base
      ensures Valid() && old(trace) <= trace && model.mgr.phase.Ended? && model.handler == old(model.handler)
      ensures multiset(base.stopsSent) == multiset(base.addsSent) == multiset(base.issued)
      ensures base.stopRequested == model.mgr.stopRequested == old(base.stopRequested) && Quiet() && !base.running
      ensures model.mgr.sys.delivered == old(model.mgr.sys.delivered)
    {
      hide S.Next, S.Enabled, S.Run, S.Valid, S.Inv;
      hide E.Next, E.Enabled, E.Run, E.Valid, E.Waits, Threads.Thread.Agrees, Threads.Thread.History;
      base.EndStep();
      LoopStepTaken(E.End);
      TimersAgree();
    }

    /** `Enter` of the manager: start the transmit timer, loop, stop what timers are left. It makes the passes `Execute`
      makes, and reports running exactly until it returns finished. Then the shutdown has been handled in order: every
      attached worker has had exactly one stop call, main is past its wait, and every timer has had one stop request. */
    method Enter(transmitTimer: TimerId, passes: seq<Pass>, leaving: seq<S.Act>)
      returns (finished: bool, batches: seq<seq<Event>>)
      requires Valid() && !up && !base.entered && model.handler.NoHandler? && !base.closing
      requires transmitTimer !in base.issued && !model.mgr.stopRequested
      modifies this, base, base.notifier
      ensures Valid() && old(trace) <= trace && model.handler.NoHandler? && finished == model.mgr.stopRequested
      ensures base.running == !finished && model.mgr.sys.delivered == old(model.mgr.sys.delivered) + Flat(batches)
      ensures |batches| <= |passes| && (!finished ==> |batches| == |passes|)
      ensures finished <==> |batches| > 0 && Exit in batches[|batches| - 1]
      ensures forall i :: 0 <= i < |batches| - 1 ==> Exit !in batches[i]
      ensures |base.waits| == |old(base.waits)| + |batches| &&
        forall i :: |old(base.waits)| <= i < |base.waits| ==>
          base.waits[i].acquired == (!passes[i - |old(base.waits)|].expired && base.waits[i].permits > 0)
      ensures finished ==>
        model.mgr.phase.Ended? && multiset(base.stopsSent) == multiset(base.addsSent) == multiset(base.issued)
      ensures finished ==> workersTerminated && S.ExitSent(mainAt)
      ensures finished ==> forall w :: multiset(calls)[S.StopCall(w)] == if w in workers then 1 else 0
    {
      hide S.Next, S.Enabled, S.Run, S.Valid, S.Inv;
      hide E.Next, E.Enabled, E.Run, E.Valid, E.Waits, Threads.Thread.Agrees, Threads.Thread.History;
      Started(transmitTimer);
      finished, batches := Execute(passes);
      if finished {
        Finish(leaving);
      }
    }

    /** The end of the manager's `Enter`. */
    method Finish(leaving: seq<S.Act>)
      requires Valid() && Looping() && model.mgr.sys.rx.Dropped? && model.mgr.stopRequested
      modifies this, base, base.notifier
      ensures Valid() && old(trace) <= trace && model.handler.NoHandler? && model.mgr.stopRequested && Quiet()
      ensures model.mgr.sys.delivered == old(model.mgr.sys.delivered) && !base.running && model.mgr.phase.Ended?
      ensures multiset(base.stopsSent) == multiset(base.addsSent) == multiset(base.issued)
      ensures workersTerminated && S.ExitSent(mainAt)
      ensures forall w :: multiset(calls)[S.StopCall(w)] == if w in workers then 1 else 0
    {
      hide S.Next, S.Enabled, S.Run, S.Valid, S.Inv;
      hide E.Next, E.Enabled, E.Run, E.Valid, E.Waits, Threads.Thread.Agrees, Threads.Thread.History;
      Interfere(leaving);
      StopRemainingTimers();
      Safe();
      StoppedInOrder(model);
    }

    /** The start latch: from here on the manager reports running. */
    method StartRunning()
      requires Valid() && !base.entered
      modifies base
      ensures Valid() && base.entered && base.running && base.waits == old(base.waits)
      ensures base.closing == old(base.closing) && base.issued == old(base.issued)
    {
      hide S.Next, S.Enabled, S.Run, S.Valid, S.Inv;
      hide E.Next, E.Enabled, E.Run, E.Valid, E.Waits, Threads.Thread.Agrees, Threads.Thread.History;
      base.StartRunning();
    }

    method Started(transmitTimer: TimerId)
      requires Valid() && !up && !base.entered && model.handler.NoHandler? && !base.closing
      requires transmitTimer !in base.issued && !model.mgr.stopRequested
      modifies `up, `transmitTimerId, `trace, `model, base
      ensures Valid() && Looping() && old(trace) <= trace && model.mgr.sys.rx.Idle? && !model.mgr.stopRequested
      ensures base.running && base.waits == old(base.waits) && model.mgr.sys.delivered == old(model.mgr.sys.delivered)
    {
      hide S.Next, S.Enabled, S.Run, S.Valid, S.Inv;
      hide E.Next, E.Enabled, E.Run, E.Valid, E.Waits, Threads.Thread.Agrees, Threads.Thread.History;
      TimersAgree();
      StartRunning();
      TimersAgree();
      Starting(transmitTimer);
    }

    // ---- the waits ----

    /** `WorkersRunning`: `any_of` over the workers. */
    method WorkersRunning(isRunning: nat -> bool) returns (aWorkerIsRunning: bool)
      ensures aWorkerIsRunning <==> exists w :: w in workers && isRunning(w)
    {
      var todo := workers;
      aWorkerIsRunning := false;
      while todo != {}
        invariant todo <= workers
        invariant aWorkerIsRunning ==> exists w :: w in workers && isRunning(w)
        invariant !aWorkerIsRunning ==> forall w :: w in workers - todo ==> !isRunning(w)
        decreases todo
      {
        Inhabited(todo);
        var worker :| worker in todo;
        if isRunning(worker) {
          return true;
        }
        todo := todo - {worker};
      }
    }

    /** `TryWaitForWorkersShutdown`; `isRunning(i)` says which threads run when asked for the i-th time. */
    method TryWaitForWorkersShutdown(isRunning: nat -> nat -> bool, clock: nat -> int)
      returns (sleeps: nat, gaveUp: bool)
      requires SleepsLongEnough(clock)
      ensures sleeps <= 50
      ensures gaveUp <==> sleeps > 0 && clock(sleeps) - clock(0) >= 1_000_000_000
      ensures forall i: nat :: 0 < i < sleeps ==> clock(i) - clock(0) < 1_000_000_000
      ensures forall i: nat :: i < sleeps ==> exists w :: w in workers && isRunning(i)(w)
      ensures !gaveUp ==> forall w :: w in workers ==> !isRunning(sleeps)(w)
      ensures WaitEnds(AnyRunning(workers, isRunning), clock, sleeps, gaveUp)
    {
      hide AnyRunning, ToMs, SleepsLongEnough;
      ghost var running := AnyRunning(workers, isRunning);
      sleeps, gaveUp := 0, false;
      AnyRunningIs(workers, isRunning, 0);
      var stillRunning := WorkersRunning(isRunning(0));
      while stillRunning
        invariant stillRunning == running(sleeps) && !gaveUp
        invariant sleeps > 0 ==> ToMs(clock(sleeps) - clock(0)) < TEARDOWN_THRESHOLD_MS
        invariant forall i: nat :: i < sleeps ==> KeepsWaiting(running, clock, i)
        decreases 50 - sleeps
      {
        RoomForAnother(clock, sleeps);
        sleeps := sleeps + 1;
        var duration := ToMs(clock(sleeps) - clock(0));
        if duration >= TEARDOWN_THRESHOLD_MS {
          gaveUp := true;
          break;
        }
        AnyRunningIs(workers, isRunning, sleeps);
        stillRunning := WorkersRunning(isRunning(sleeps));
      }
      WaitIsBounded(running, clock, sleeps, gaveUp);
      WaitInNanoseconds(running, clock, sleeps, gaveUp);
      forall i: nat { AnyRunningIs(workers, isRunning, i); }
    }

    /** `TryWaitForManagerShutdown`; `isRunning(i)` is what `IsRunning` returns the i-th time. */
    method TryWaitForManagerShutdown(isRunning: nat -> bool, clock: nat -> int) returns (sleeps: nat, gaveUp: bool)
      requires SleepsLongEnough(clock)
      ensures sleeps <= 50
      ensures gaveUp <==> sleeps > 0 && clock(sleeps) - clock(0) >= 1_000_000_000
      ensures forall i: nat :: 0 < i < sleeps ==> clock(i) - clock(0) < 1_000_000_000
      ensures (forall i: nat :: i < sleeps ==> isRunning(i)) && (!gaveUp ==> !isRunning(sleeps))
      ensures WaitEnds(isRunning, clock, sleeps, gaveUp)
    {
      hide ToMs, SleepsLongEnough;
      sleeps, gaveUp := 0, false;
      while isRunning(sleeps)
        invariant !gaveUp
        invariant sleeps > 0 ==> ToMs(clock(sleeps) - clock(0)) < TEARDOWN_THRESHOLD_MS
        invariant forall i: nat :: i < sleeps ==> KeepsWaiting(isRunning, clock, i)
        decreases 50 - sleeps
      {
        RoomForAnother(clock, sleeps);
        sleeps := sleeps + 1;
        var duration := ToMs(clock(sleeps) - clock(0));
        if duration >= TEARDOWN_THRESHOLD_MS {
          gaveUp := true;
          break;
        }
      }
      WaitIsBounded(isRunning, clock, sleeps, gaveUp);
      WaitInNanoseconds(isRunning, clock, sleeps, gaveUp);
    }
  }

  lemma ShutdownIsHandledOnce(s: S.State, to: nat)
    requires S.Inv(s) && S.Enabled(s, S.Dispatch(to)) && Front(s, Event.Shutdown)
    ensures !s.terminated
  {
  }

  lemma NoHandlerYet(s: S.State, to: nat)
    requires S.Enabled(s, S.Dispatch(to))
    ensures s.handler.NoHandler? && s.mgr.phase.Running?
  {
  }

  /** Main is past its wait, or its wait can pass. */
  lemma MainMayGoOn(s: S.State)
    requires S.Inv(s) && s.handler.NoHandler?
    ensures s.terminated ==> s.initiated > 0 || S.AfterWait(s.main)
  {
    hide E.Inv, S.CallersInv, S.NoExitYet, S.PlaceInv, S.OneShutdown, S.CallsInv;
  }

  /** A stop request of the manager's loop comes after all of the teardown. */
  lemma StoppedInOrder(s: S.State)
    requires S.Inv(s) && s.handler.NoHandler? && s.mgr.stopRequested
    ensures s.terminated && S.ExitSent(s.main) && S.AllWorkersStopped(s)
  {
    S.StopsOnlyOnExit(s);
    hide E.Inv, S.CallersInv, S.PlaceInv, C.Stream;
  }

  /** Workers are attached only while main is still at it, so not once a Shutdown has been dispatched. */
  lemma OthersAttachInTime(start: seq<S.WorkerCall>, calls: seq<S.WorkerCall>, ws: set<nat>, us: set<nat>, over: bool,
                           shut: bool)
    requires PassCalls(start, calls, ws, over, shut) && (shut ==> us == ws)
    ensures PassCalls(start, calls, us, over, shut)
  {
  }

  lemma DeliverIsOn(s: S.State)
    requires s.mgr.sys.rx.Passing? && |s.mgr.sys.rx.rest| > 0
    ensures C.Enabled(s.mgr.sys, C.Deliver)
  {
  }
}
