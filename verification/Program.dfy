/** `main` of src/main/main.cpp on the objects: threads are started, workers attached, an exit signal comes, and main waits
  for the shutdown while the manager runs. One schedule is followed from the first step to the last, so the methods of
  `ManagerThread` do carry a shutdown through. */
module Program {
  import opened Events
  import opened Channel
  import C = ChannelRuns
  import E = EventLoop
  import T = LoopTimers
  import S = Shutdown
  import SL = ShutdownLiveness
  import Threads
  import opened Managers

  /** Steps of main, the exit handler and `Starting`: what they do to the manager's channel. */
  lemma CallerStep(s: S.State, a: S.Act)
    requires S.Inv(s) && S.Enabled(s, a) && (a.Attach? || a.Signal? || a.Up? || a.MainStep?)
    requires !s.mgr.sys.core.disconnected
    ensures var k, t := s.mgr.sys, S.Next(s, a).mgr.sys;
      && t.core.queue ==
           (if a.MainStep? && s.main.SendSection? then k.core.queue + [Event.Shutdown]
            else if a.MainStep? && s.main.StopSection? then [Exit] else k.core.queue)
      && (a.MainStep? && (s.main.SendRelease? || s.main.StopRelease?) ==> t.core.permits > 0)
      && t.rx == k.rx && !t.core.disconnected
    ensures S.Next(s, a).main == (if a.MainStep? then S.AfterMain(s) else s.main)
    ensures S.Next(s, a).handler == s.handler && S.Next(s, a).terminated == s.terminated
    ensures S.Next(s, a).up == (s.up || a.Up?)
  {
    hide S.Next, E.Enabled, E.Next, S.NoExitYet, S.HandlerInv, S.PlaceInv, S.OneShutdown, S.CallsInv, E.Inv;
    S.MainAfter(s, a);
    S.HandlerAfter(s, a);
    S.FlagsAfter(s, a);
    S.MgrAfter(s, a);
    UpAfter(s, a);
    if |S.MgrMove(s, a)| > 0 {
      E.QueueAfter(s.mgr, S.MgrMove(s, a)[0]);
      E.RxAfter(s.mgr, S.MgrMove(s, a)[0]);
      StaysConnected(s.mgr, S.MgrMove(s, a)[0]);
    }
  }

  lemma UpAfter(s: S.State, a: S.Act)
    requires S.Enabled(s, a)
    ensures S.Next(s, a).up == (s.up || a.Up?)
  {
  }

  lemma StaysConnected(s: E.Loop, a: E.Act)
    requires E.Enabled(s, a) && !a.Leave?
    ensures E.Next(s, a).sys.core.disconnected == s.sys.core.disconnected
  {
  }

  /** What a step of main keeps of the object. */
  lemma MainStepKeeps(s: S.State, a: S.Act)
    requires S.Inv(s) && S.Enabled(s, a) && a.MainStep?
    ensures var t := S.Next(s, a);
      && t.handler == s.handler && t.terminated == s.terminated && t.workers == s.workers && t.calls == s.calls
      && t.up == s.up && t.mgr.sys.rx == s.mgr.sys.rx && t.mgr.phase == s.mgr.phase
      && t.mgr.stopRequested == s.mgr.stopRequested
      && (s.main.Attaching? ==> t.initiate == s.initiate)
      && SL.Stage(t.main) < SL.Stage(s.main)
  {
    hide E.Next, E.Enabled, S.Next, S.Enabled, S.Inv;
    ForeignFrame(s, a);
    SL.OnlyWaitTakesTheSignal(s, a);
    S.HandlerAfter(s, a);
    hide SL.Stage;
    StageFalls(s, a);
  }

  lemma StageFalls(s: S.State, a: S.Act)
    requires S.Enabled(s, a) && a.MainStep?
    ensures SL.Stage(S.Next(s, a).main) < SL.Stage(s.main)
  {
    SL.NotPast(s, a);
    S.MainAfter(s, a);
    hide S.Next, S.Enabled;
    assert SL.Stage(S.AfterMain(s)) < SL.Stage(s.main);
  }

  /** What the invariant says of an idle loop. */
  lemma IdleLoop(s: S.State)
    requires S.Inv(s) && s.mgr.sys.rx.Idle?
    ensures !s.mgr.sys.core.disconnected && s.mgr.phase.Running?
    ensures s.mgr.stopRequested ==> S.ExitSent(s.main)
    ensures s.terminated ==> s.up && S.Accepted(s.main)
  {
    hide S.CallersInv, S.OneShutdown, S.CallsInv, C.Stream;
    S.StopsOnlyOnExit(s);
    assert C.Fifo(s.mgr.sys);
  }

  /** The next step of main, which is not blocked. */
  method NextStepOfMain(m: ManagerThread) returns (ghost a: S.Act)
    requires m.Valid() && !m.mainAt.Past? && (m.mainAt.WaitInitiate? ==> m.shutdownInitiateSignal > 0)
    requires m.mainAt.WaitInitiated? ==> m.shutdownInitiatedSignal > 0
    modifies m, m.base, m.base.notifier
    ensures m.Valid() && a.MainStep? && m.Did(a) && m.Quiet()
  {
    hide S.Next, S.Enabled, S.Run, S.Valid, S.Inv;
    hide E.Next, E.Enabled, E.Run, E.Valid, E.Waits, Threads.Thread.Agrees, Threads.Thread.History;
    if m.mainAt.Transmit? || m.mainAt.SendSection? || m.mainAt.SendRelease? {
      ghost var to := m.TransmitStep();
      a := S.MainStep(to);
    } else if S.MainMoves(m.mainAt) {
      ghost var to := m.StopStep();
      a := S.MainStep(to);
    } else {
      var moved := m.WaitStep();
      a := S.MainStep(1);
    }
  }

  /** The manager's loop is idle and no handler runs. */
  ghost predicate Waiting(s: S.State) {
    s.up && s.handler.NoHandler? && s.mgr.sys.rx.Idle?
  }

  /** main up to its second wait: start the manager, attach the workers, take the exit signal, send the Shutdown. */
  method Start(workers: set<nat>, transmitTimer: TimerId) returns (m: ManagerThread)
    ensures fresh(m) && fresh(m.base) && fresh(m.base.notifier) && m.Valid() && Waiting(m.model) && m.base.entered
    ensures m.mainAt.WaitInitiated? && !m.workersTerminated && m.workers == workers && m.calls == []
    ensures m.model.mgr.sys.core.queue == [Event.Shutdown] && m.model.mgr.sys.core.permits > 0
  {
    m := Prepare(workers, transmitTimer);
    hide S.Next, S.Enabled, S.Run, S.Valid, S.Inv;
    hide E.Next, E.Enabled, E.Run, E.Valid, E.Waits, Threads.Thread.Agrees, Threads.Thread.History, SL.Stage;
    while !m.mainAt.WaitInitiated?
      invariant fresh(m) && fresh(m.base) && fresh(m.base.notifier) && m.Valid() && Waiting(m.model) && m.base.entered
      invariant !m.workersTerminated && m.workers == workers && m.calls == [] && !S.AfterWait(m.mainAt)
      invariant m.mainAt.Attaching? || m.mainAt.WaitInitiate? ==> m.shutdownInitiateSignal > 0
      invariant m.model.mgr.sys.core.queue == if S.Accepted(m.mainAt) then [Event.Shutdown] else []
      invariant m.mainAt.WaitInitiated? ==> m.model.mgr.sys.core.permits > 0
      decreases SL.Stage(m.mainAt)
    {
      ghost var s := m.model;
      m.Safe();
      IdleLoop(s);
      ghost var a := NextStepOfMain(m);
      CallerStep(s, a);
      MainStepKeeps(s, a);
    }
  }

  method Prepare(workers: set<nat>, transmitTimer: TimerId) returns (m: ManagerThread)
    ensures fresh(m) && fresh(m.base) && fresh(m.base.notifier) && m.Valid() && Waiting(m.model) && m.base.entered
    ensures m.mainAt.Attaching? && !m.workersTerminated && m.workers == workers && m.calls == []
    ensures m.shutdownInitiateSignal > 0 && m.model.mgr.sys.core.queue == []
  {
    m := StartManager(transmitTimer);
    hide S.Next, S.Enabled, S.Run, S.Valid, S.Inv, S.Init;
    hide E.Next, E.Enabled, E.Run, E.Valid, E.Waits, Threads.Thread.Agrees, Threads.Thread.History;
    var todo := workers;
    while todo != {}
      invariant fresh(m) && fresh(m.base) && fresh(m.base.notifier) && m.Valid() && Waiting(m.model) && m.base.entered
      invariant m.mainAt.Attaching? && !m.workersTerminated && m.calls == []
      invariant m.model.mgr.sys.core.queue == [] && todo <= workers && m.workers == workers - todo
      decreases todo
    {
      Inhabited(todo);
      var worker :| worker in todo;
      ghost var s := m.model;
      m.Safe();
      IdleLoop(s);
      m.AttachWorker(worker);
      CallerStep(s, S.Attach(worker));
      KeepsWorkers(s, S.Attach(worker));
      todo := todo - {worker};
    }
    ghost var s := m.model;
    m.Safe();
    IdleLoop(s);
    m.RequestShutdown();
    CallerStep(s, S.Signal(m.shutdownInitiateSignal));
    KeepsWorkers(s, S.Signal(m.shutdownInitiateSignal));
  }

  method StartManager(transmitTimer: TimerId) returns (m: ManagerThread)
    ensures fresh(m) && fresh(m.base) && fresh(m.base.notifier) && m.Valid() && Waiting(m.model) && m.base.entered
    ensures m.mainAt.Attaching? && !m.workersTerminated && !m.workersLocked && m.workers == {} && m.calls == []
    ensures m.model.mgr.sys.core.queue == []
  {
    m := new ManagerThread();
    NewManager(m);
    hide S.Next, S.Enabled, S.Run, S.Valid, S.Inv, S.Init;
    hide E.Next, E.Enabled, E.Run, E.Valid, E.Waits, Threads.Thread.Agrees, Threads.Thread.History;
    ghost var s := m.model;
    m.Safe();
    m.StartRunning();
    m.Starting(transmitTimer);
    CallerStep(s, S.Up(transmitTimer));
    KeepsWorkers(s, S.Up(transmitTimer));
  }

  lemma KeepsWorkers(s: S.State, a: S.Act)
    requires S.Enabled(s, a) && (a.Attach? || a.Signal? || a.Up?)
    ensures S.Next(s, a).calls == s.calls && S.Next(s, a).workers == s.workers + if a.Attach? then {a.w} else {}
  {
    hide E.Next, E.Enabled;
  }

  lemma NewManager(m: ManagerThread)
    requires m.Valid() && m.model == S.Init()
    ensures m.workers == {} && m.calls == [] && !m.up && !m.workersTerminated && m.mainAt.Attaching? && !m.workersLocked
    ensures !m.base.closing && m.base.issued == {} && m.model.handler.NoHandler? && m.model.mgr.sys.rx.Idle?
    ensures m.model.mgr.sys.core.queue == [] && !m.model.mgr.sys.core.disconnected
  {
    hide S.Run, S.Valid, E.Run, E.Valid;
  }

  /** The manager takes its batch and tears the workers down, uninterrupted. */
  method TearDown(m: ManagerThread)
    requires m.Valid() && Waiting(m.model) && m.base.entered && !m.model.mgr.stopRequested && !m.workersTerminated
    requires m.model.mgr.sys.core.queue == [Event.Shutdown] && m.model.mgr.sys.core.permits > 0
    modifies m, m.base, m.base.notifier
    ensures m.Valid() && Waiting(m.model) && m.base.entered && m.workersTerminated && m.workers == old(m.workers)
    ensures !m.model.mgr.stopRequested
    ensures CalledEachOnce(old(m.calls), m.calls, m.workers, true)
  {
    hide S.Next, S.Enabled, S.Run, S.Valid, S.Inv;
    hide E.Next, E.Enabled, E.Run, E.Valid, E.Waits, Threads.Thread.Agrees, Threads.Thread.History, SL.Stage;
    hide CalledEachOnce;
    PermitsAre(m);
    m.Safe();
    IdleLoop(m.model);
    ghost var s := m.model;
    var acquired := m.AcquireStep(false);
    QueueKept(s, E.Acquire);
    var batch, left := m.TakeStep();
    assert batch == [Event.Shutdown];
    m.Safe();
    AlreadyRunning(m.model);
    m.HandleNext(batch[0], []);
    ghost var to := m.EndPassStep(left);
  }

  lemma PermitsAre(m: ManagerThread)
    requires m.Valid()
    ensures m.base.notifier.notify == m.model.mgr.sys.core.permits
  {
    hide S.Run, S.Valid, E.Run, E.Valid;
  }

  lemma QueueKept(s: S.State, act: E.Act)
    requires S.Enabled(s, S.Loop(act)) && !act.Take?
    ensures S.Next(s, S.Loop(act)).mgr.sys.core.queue == s.mgr.sys.core.queue
  {
  }

  lemma AlreadyRunning(s: S.State)
    requires S.Inv(s) && s.mgr.sys.rx.Passing?
    ensures s.up && s.mgr.phase.Running?
  {
    hide E.Inv, S.CallersInv, S.NoExitYet, S.HandlerInv, S.OneShutdown, S.CallsInv;
  }

  /** main from its second wait to the end of `Stop`. */
  method FinishMain(m: ManagerThread)
    requires m.Valid() && Waiting(m.model) && m.base.entered && m.workersTerminated
    modifies m, m.base, m.base.notifier
    ensures m.Valid() && Waiting(m.model) && m.base.entered && m.workersTerminated && m.mainAt.Past?
    ensures m.workers == old(m.workers) && m.calls == old(m.calls)
    ensures m.model.mgr.stopRequested == old(m.model.mgr.stopRequested)
  {
    hide S.Next, S.Enabled, S.Run, S.Valid, S.Inv;
    hide E.Next, E.Enabled, E.Run, E.Valid, E.Waits, Threads.Thread.Agrees, Threads.Thread.History, SL.Stage;
    while !m.mainAt.Past?
      invariant m.Valid() && Waiting(m.model) && m.base.entered && m.workersTerminated
      invariant m.workers == old(m.workers) && m.calls == old(m.calls)
      invariant m.model.mgr.stopRequested == old(m.model.mgr.stopRequested)
      decreases SL.Stage(m.mainAt)
    {
      ghost var s := m.model;
      m.Safe();
      IdleLoop(s);
      MainMayGoOn(s);
      ghost var a := NextStepOfMain(m);
      MainStepKeeps(s, a);
    }
  }

  /** The manager's last pass and the end of `Enter`, when main has stopped it. */
  method FinishManager(m: ManagerThread)
    requires m.Valid() && Waiting(m.model) && m.base.entered && m.workersTerminated
    requires m.mainAt.Past? && !m.model.mgr.stopRequested
    modifies m, m.base, m.base.notifier
    ensures m.Valid() && m.model.mgr.phase.Ended? && m.workersTerminated && m.calls == old(m.calls)
    ensures S.ExitSent(m.mainAt) && !m.base.running
    ensures multiset(m.base.stopsSent) == multiset(m.base.addsSent)
  {
    hide S.Next, S.Enabled, S.Run, S.Valid, S.Inv;
    hide E.Next, E.Enabled, E.Run, E.Valid, E.Waits, Threads.Thread.Agrees, Threads.Thread.History, SL.Stage;
    hide PassCalls;
    WakeUp(m);
    m.Safe();
    IdleLoop(m.model);
    PermitsAre(m);
    ghost var s := m.model;
    var acquired := m.AcquireStep(false);
    QueueKept(s, E.Acquire);
    var batch, left := m.TakeStep();
    assert batch[0] == Exit && Exit in batch;
    ghost var calls := m.calls;
    m.DispatchBatch(batch, left, []);
    CallsUnchanged(calls, m.calls, m.workers, Event.Shutdown in batch);
    ghost var to := m.EndPassStep(left);
    m.LeaveStep();
    m.StopRemainingTimers();
    m.Safe();
    StoppedInOrder(m.model);
  }

  lemma CallsUnchanged(start: seq<S.WorkerCall>, calls: seq<S.WorkerCall>, ws: set<nat>, shut: bool)
    requires PassCalls(start, calls, ws, true, shut)
    ensures calls == start
  {
  }

  /** The Exit is at the head of the queue, and if no permit is there yet the timer thread owes one. */
  method WakeUp(m: ManagerThread)
    requires m.Valid() && Waiting(m.model) && m.base.entered && m.workersTerminated
    requires m.mainAt.Past? && !m.model.mgr.stopRequested
    modifies m, m.base, m.base.notifier
    ensures m.Valid() && Waiting(m.model) && m.base.entered && m.workersTerminated
    ensures m.mainAt.Past? && !m.model.mgr.stopRequested
    ensures m.calls == old(m.calls) && m.workers == old(m.workers)
    ensures E.ExitFirst(m.model.mgr.sys.core.queue) && m.model.mgr.sys.core.permits > 0
  {
    hide S.Next, S.Enabled, S.Run, S.Valid, S.Inv;
    hide E.Next, E.Enabled, E.Run, E.Valid, E.Waits, Threads.Thread.Agrees, Threads.Thread.History, SL.Stage;
    m.Safe();
    ExitIsWaiting(m);
    if m.base.notifier.notify == 0 {
      ghost var s := m.model;
      ghost var did := m.TimerStep(E.Release(E.TIMER, 1));
      ReleaseStep(s, did[0]);
    }
  }

  lemma ExitIsWaiting(m: ManagerThread)
    requires m.Valid() && S.Inv(m.model) && Waiting(m.model) && m.mainAt.Past? && !m.model.mgr.stopRequested
    ensures E.ExitFirst(m.model.mgr.sys.core.queue) && m.base.notifier.notify == m.model.mgr.sys.core.permits
    ensures m.base.notifier.notify == 0 ==> E.TIMER in m.base.callers && m.base.callers[E.TIMER].Releasing?
  {
    var s := m.model;
    hide S.Run, S.Valid, E.Run, E.Valid, S.NoExitYet, S.HandlerInv, S.PlaceInv, S.OneShutdown, S.CallsInv;
    assert E.ExitInv(s.mgr) && C.Fifo(s.mgr.sys) && C.NoLostWakeUp(s.mgr.sys) && S.CallersInv(s);
  }

  lemma ReleaseStep(s: S.State, a: S.Act)
    requires S.Enabled(s, a) && a.Timer? && a.act.Release?
    ensures var t := S.Next(s, a);
      && t == s.(mgr := t.mgr) && t.mgr.sys.rx == s.mgr.sys.rx && t.mgr.sys.core.queue == s.mgr.sys.core.queue
      && t.mgr.sys.core.permits > 0 && t.mgr.stopRequested == s.mgr.stopRequested
  {
  }

  /** The program from start to end, on one schedule: the Shutdown is handled, every worker is stopped exactly once and
    never tested, main stops the manager, the manager's thread ends, and every timer has had its stop request. */
  method FromStartToEnd(workers: set<nat>, transmitTimer: TimerId) returns (m: ManagerThread)
    ensures m.Valid() && S.ExitSent(m.mainAt) && m.model.mgr.phase.Ended? && m.workersTerminated && !m.base.running
    ensures CalledEachOnce([], m.calls, workers, true)
    ensures multiset(m.base.stopsSent) == multiset(m.base.addsSent)
  {
    hide S.Next, S.Enabled, S.Run, S.Valid, S.Inv;
    hide E.Next, E.Enabled, E.Run, E.Valid, E.Waits, Threads.Thread.Agrees, Threads.Thread.History, SL.Stage;
    hide CalledEachOnce;
    m := Start(workers, transmitTimer);
    m.Safe();
    IdleLoop(m.model);
    TearDown(m);
    FinishMain(m);
    FinishManager(m);
  }
}
