/** The shutdown handshake cannot get stuck. Once a shutdown signal is there, some step that brings the handshake nearer
  to its end is enabled in every reachable state, every such step lowers a lexicographic measure, and nothing else
  raises it: not the timer thread that keeps appending expiries, not further signals. */
module ShutdownLiveness {
  import opened Events
  import opened Channel
  import C = ChannelRuns
  import E = EventLoop
  import T = LoopTimers
  import opened Fairness
  import opened Shutdown

  function Stage(pc: MainPc): nat {
    match pc
    case Attaching => 10
    case WaitInitiate => 9
    case Transmit => 8
    case SendSection => 7
    case SendRelease => 6
    case WaitInitiated => 5
    case StopCheck => 4
    case StopStore => 3
    case StopSection => 2
    case StopRelease => 1
    case Past => 0
  }

  /** Events before the first Shutdown. */
  function Before(q: seq<Event>): nat {
    if |q| == 0 || q[0].Shutdown? then 0 else 1 + Before(q[1..])
  }

  /** The handshake is waiting for the manager to reach the Shutdown event and to tear down. */
  predicate Awaiting(s: State) {
    s.main.SendRelease? || s.main.WaitInitiated?
  }

  function Work(h: Handler): nat {
    match h
    case NoHandler => 0
    case SendingTests(todo) => 1 + |todo|
    case Tearing(todo) => 2 + |todo|
    case Initiated => 1
  }

  /** Steps of the loop before it takes its next batch. */
  function Place(s: State): nat {
    match s.mgr.sys.rx
    case Holding => 1
    case Idle => if !s.up then 4 else if s.mgr.sys.core.permits == 0 then 3 else 2
    case Passing(rest, _) => 5 + |rest|
    case Dropped => 0
  }

  /** How far main has got; then how many events of the queue are ahead of the Shutdown event; then where the manager's
    loop stands within its pass; then what the running handler has left to do. */
  function M(s: State): Measure {
    var batch := C.InFlight(s.mgr.sys);
    if !Awaiting(s) then Measure(Stage(s.main), 0, 0, 0)
    else if s.terminated then Measure(Stage(s.main), 0, 0, Work(s.handler))
    else if Event.Shutdown in batch then Measure(Stage(s.main), 0, 1 + Before(batch), Work(s.handler))
    else Measure(Stage(s.main), 1 + Before(s.mgr.sys.core.queue), Place(s), Work(s.handler))
  }

  /** The steps that bring the handshake nearer to its end: every step of main, and while main waits every step of the
    manager that is not an empty wait and the release without which it would sleep. */
  predicate Progress(s: State, a: Act) {
    || a.MainStep?
    || (Awaiting(s) && (a.WorkerStep? || a.Unlock? || a.SignalDone?))
    || (Awaiting(s) && !s.terminated &&
        (a.Up? || a.Dispatch? || (a.Loop? && (a.act.Acquire? || a.act.Take? || a.act.EndPass?)) ||
         (a.Timer? && a.act.Release? && s.up && s.mgr.sys.rx.Idle? && s.mgr.sys.core.permits == 0)))
  }

  /** A shutdown signal has been released. */
  predicate Signalled(s: State) {
    s.initiate > 0 || Stage(s.main) < Stage(WaitInitiate)
  }

  // ---- positions ----

  lemma {:induction false} BeforeIsFirst(q: seq<Event>)
    requires Event.Shutdown in q
    ensures Before(q) < |q| && q[Before(q)].Shutdown? && forall i :: 0 <= i < Before(q) ==> !q[i].Shutdown?
  {
    if q[0].Shutdown? {
    } else {
      assert q == [q[0]] + q[1..];
      BeforeIsFirst(q[1..]);
    }
  }

  lemma FirstIsBefore(q: seq<Event>, n: nat)
    requires n < |q| && q[n].Shutdown? && forall i :: 0 <= i < n ==> !q[i].Shutdown?
    ensures Before(q) == n
  {
    BeforeIsFirst(q);
  }

  lemma BeforeAppend(q: seq<Event>, e: Event)
    requires Event.Shutdown in q
    ensures Before(q + [e]) == Before(q)
  {
    BeforeIsFirst(q);
    FirstIsBefore(q + [e], Before(q));
  }

  /** Cutting the queue at `n` leaves the Shutdown in the front part or brings it nearer in the rest. */
  lemma BeforeCut(q: seq<Event>, n: nat)
    requires Event.Shutdown in q && n <= |q|
    ensures if Before(q) < n then Event.Shutdown in q[..n]
      else Event.Shutdown !in q[..n] && Event.Shutdown in q[n..] && Before(q[n..]) == Before(q) - n
  {
    BeforeIsFirst(q);
    if Before(q) < n {
      assert q[..n][Before(q)].Shutdown?;
    } else {
      assert q[n..][Before(q) - n].Shutdown?;
      FirstIsBefore(q[n..], Before(q) - n);
    }
  }

  // ---- what the steps do to the queue ----

  /** Until the teardown begins, the Shutdown event is in the batch or in the queue, and the loop goes on. */
  lemma ShutdownIsAhead(s: State)
    requires Inv(s) && Awaiting(s) && !s.terminated
    ensures Event.Shutdown in C.InFlight(s.mgr.sys) || Event.Shutdown in s.mgr.sys.core.queue
    ensures !s.mgr.sys.core.disconnected && !s.mgr.stopRequested && !s.mgr.sys.rx.Dropped? && s.mgr.phase.Running?
  {
  }

  // ---- every step, case by case ----

  /** `a` lowers the measure if it is progress, and never raises it. */
  predicate Descends(s: State, a: Act)
    requires Enabled(s, a)
  {
    LessOrEqual(M(Next(s, a)), M(s)) && (Progress(s, a) ==> Less(M(Next(s, a)), M(s)))
  }

  lemma MainDescends(s: State, a: Act)
    requires Enabled(s, a) && a.MainStep?
    ensures Less(M(Next(s, a)), M(s))
  {
    hide Next, Awaiting, Place, Before, Work, C.InFlight;
    MainAfter(s, a);
    NotPast(s, a);
    assert Stage(AfterMain(s)) < Stage(s.main);
  }

  lemma NotPast(s: State, a: Act)
    requires Enabled(s, a) && a.MainStep?
    ensures !s.main.Past?
  {
  }

  lemma WorkAfter(s: State, a: Act)
    requires Enabled(s, a)
    ensures a.WorkerStep? || a.Unlock? || a.SignalDone? ==> Work(Next(s, a).handler) < Work(s.handler)
    ensures a.WorkerStep? || a.Unlock? || a.SignalDone? ==> Next(s, a).mgr == s.mgr && Next(s, a).up == s.up
    ensures !(a.WorkerStep? || a.Unlock? || a.SignalDone? || a.Dispatch?) ==> Next(s, a).handler == s.handler
  {
  }

  /** After the teardown has begun only the handler's work counts. */
  lemma TerminatedDescends(s: State, a: Act)
    requires Inv(s) && Enabled(s, a) && !a.MainStep? && s.terminated
    ensures Descends(s, a)
  {
    hide Next, E.Inv, CallersInv, NoExitYet, PlaceInv, CallsInv, Place, Before, C.InFlight, E.Enabled, OneShutdown;
    MainAfter(s, a);
    FlagsAfter(s, a);
    WorkAfter(s, a);
    if a.Dispatch? {
      DispatchHasBatch(s, a);
      HandlerAfter(s, a);
      if s.mgr.sys.rx.rest[0].Shutdown? {
        DispatchedOnce(s, a);
      }
      DispatchNeedsNoHandler(s, a);
    }
  }

  lemma DispatchNeedsNoHandler(s: State, a: Act)
    requires Enabled(s, a) && a.Dispatch?
    ensures s.handler.NoHandler?
  {
  }

  /** The manager's loop after a step that does not begin the teardown. */
  lemma MgrIs(s: State, a: Act)
    requires Enabled(s, a) && !TearsDown(s, a) && |MgrMove(s, a)| > 0
    ensures E.Enabled(s.mgr, MgrMove(s, a)[0]) && Next(s, a).mgr == E.Next(s.mgr, MgrMove(s, a)[0])
    ensures Next(s, a).up == (s.up || a.Up?)
  {
  }

  lemma DispatchDescends(s: State, a: Act)
    requires Inv(s) && Enabled(s, a) && a.Dispatch? && Awaiting(s) && !s.terminated
    ensures Less(M(Next(s, a)), M(s))
  {
    hide Next, E.Inv, CallersInv, NoExitYet, PlaceInv, CallsInv, OneShutdown, HandlerInv, E.Enabled, E.Next;
    MainAfter(s, a);
    FlagsAfter(s, a);
    DispatchHasBatch(s, a);
    var rest := s.mgr.sys.rx.rest;
    if rest[0].Shutdown? {
      assert Event.Shutdown in C.InFlight(s.mgr.sys);
    } else {
      assert !TearsDown(s, a);
      MgrIs(s, a);
      E.RxAfter(s.mgr, MgrMove(s, a)[0]);
      E.QueueAfter(s.mgr, MgrMove(s, a)[0]);
      assert rest == [rest[0]] + rest[1..];
    }
  }

  lemma TakeDescends(s: State, a: Act)
    requires Inv(s) && Enabled(s, a) && a == Loop(E.Take) && Awaiting(s) && !s.terminated
    ensures Less(M(Next(s, a)), M(s))
  {
    ShutdownIsAhead(s);
    TakeNeedsHolding(s);
    hide Next, Inv, E.Enabled, E.Next;
    MainAfter(s, a);
    FlagsAfter(s, a);
    MgrIs(s, a);
    E.RxAfter(s.mgr, E.Take);
    E.QueueAfter(s.mgr, E.Take);
    BeforeCut(s.mgr.sys.core.queue, BatchSize(s.mgr.sys.core, E.MAX_EVENTS_PER_LOOP));
  }

  lemma TakeNeedsHolding(s: State)
    requires Enabled(s, Loop(E.Take))
    ensures s.mgr.sys.rx.Holding?
  {
  }

  /** The manager's other steps leave the queue alone and its place in the pass no worse. */
  lemma LoopDescends(s: State, a: Act)
    requires Inv(s) && Enabled(s, a) && (a.Up? || (a.Loop? && !a.act.Take?)) && Awaiting(s) && !s.terminated
    ensures Descends(s, a)
  {
    hide Inv, E.Enabled, E.Next, Next, Place, Before, MgrMove;
    ShutdownIsAhead(s);
    WorkAfter(s, a);
    MainAfter(s, a);
    FlagsAfter(s, a);
    LoopPlace(s, a);
    LoopMoves(s, a);
  }

  lemma LoopMoves(s: State, a: Act)
    requires Inv(s) && Enabled(s, a) && (a.Up? || (a.Loop? && !a.act.Take?))
    requires !s.mgr.stopRequested && !s.mgr.sys.rx.Dropped? && s.mgr.phase.Running?
    ensures var k, t := s.mgr.sys, Next(s, a).mgr.sys;
      && t.core.queue == k.core.queue && C.InFlight(t) == C.InFlight(k)
      && (if a.Up? || a.act.Acquire? || a.act.EndPass? then Place(Next(s, a)) < Place(s)
          else Place(Next(s, a)) == Place(s))
  {
    LoopPlace(s, a);
    MgrIs(s, a);
    LoopMoveIs(s, a);
    var move := if a.Up? then E.StartTimer(a.id) else a.act;
    hide Next, Inv, Enabled, E.Enabled, E.Next, MgrMove, Place;
    E.RxAfter(s.mgr, move);
    E.QueueAfter(s.mgr, move);
    PlaceMoves(s, Next(s, a));
  }

  lemma PlaceMoves(s: State, t: State)
    requires s.up ==> t.up
    ensures s.mgr.sys.rx.Idle? && !s.up && t.mgr.sys.rx.Idle? && t.up ==> Place(t) < Place(s)
    ensures s.mgr.sys.rx.Idle? && t.mgr.sys.rx.Holding? ==> Place(t) < Place(s)
    ensures s.mgr.sys.rx.Passing? && t.mgr.sys.rx.Idle? ==> Place(t) < Place(s)
    ensures t.mgr.sys.rx == s.mgr.sys.rx && t.up == s.up && t.mgr.sys.core.permits == s.mgr.sys.core.permits ==>
      Place(t) == Place(s)
  {
  }

  lemma LoopMoveIs(s: State, a: Act)
    requires Enabled(s, a) && (a.Up? || a.Loop?)
    ensures MgrMove(s, a) == [if a.Up? then E.StartTimer(a.id) else a.act]
    ensures a.Loop? ==> s.up && LoopMove(a.act)
  {
    hide E.Enabled, E.Next;
  }

  lemma LoopPlace(s: State, a: Act)
    requires Inv(s) && Enabled(s, a) && (a.Up? || a.Loop?)
    requires !s.mgr.stopRequested && !s.mgr.sys.rx.Dropped? && s.mgr.phase.Running?
    ensures a.Up? ==> s.mgr.sys.rx.Idle? && !s.up
    ensures a.Loop? ==> s.up && !a.act.Leave? && !a.act.BeginClose? && !a.act.CloseTimer? && !a.act.End?
    ensures a.Loop? && a.act.Acquire? ==> s.mgr.sys.rx.Idle? && s.mgr.sys.core.permits > 0
    ensures a.Loop? && a.act.EndPass? ==> s.mgr.sys.rx.Passing? && s.mgr.sys.rx.rest == []
  {
    hide E.Inv, OneShutdown, CallersInv, NoExitYet, CallsInv, HandlerInv;
  }

  lemma TimerSectionDescends(s: State, a: Act)
    requires Inv(s) && Enabled(s, a) && a.Timer? && a.act.Section? && Awaiting(s) && !s.terminated
    ensures M(Next(s, a)) == M(s)
  {
    ShutdownIsAhead(s);
    TimerActs(s, a);
    WorkAfter(s, a);
    MainAfter(s, a);
    FlagsAfter(s, a);
    TimerMgrIs(s, a);
    hide Next, Inv, Enabled, E.Enabled, E.Next, Place, Before, Work, M;
    E.RxAfter(s.mgr, a.act);
    E.QueueAfter(s.mgr, a.act);
    if Event.Shutdown in s.mgr.sys.core.queue {
      BeforeAppend(s.mgr.sys.core.queue, s.mgr.sys.senders[E.TIMER].value);
    }
    SameMeasure(s, Next(s, a));
  }

  lemma SameMeasure(s: State, t: State)
    requires t.main == s.main && t.terminated == s.terminated && t.handler == s.handler && t.up == s.up
    requires t.mgr.sys.rx == s.mgr.sys.rx && t.mgr.sys.core.permits == s.mgr.sys.core.permits
    requires Event.Shutdown in C.InFlight(s.mgr.sys) ||
             Before(t.mgr.sys.core.queue) == Before(s.mgr.sys.core.queue)
    ensures M(t) == M(s)
  {
    hide Before, Work;
  }

  lemma TimerDescends(s: State, a: Act)
    requires Inv(s) && Enabled(s, a) && a.Timer? && Awaiting(s) && !s.terminated
    ensures Descends(s, a)
  {
    hide Next, Inv, E.Enabled, E.Next, MgrMove, MgrNext, Before;
    if a.act.Section? {
      TimerSectionDescends(s, a);
    } else {
      ShutdownIsAhead(s);
      TimerActs(s, a);
      WorkAfter(s, a);
      MainAfter(s, a);
      FlagsAfter(s, a);
      TimerMgrIs(s, a);
      E.RxAfter(s.mgr, a.act);
      E.QueueAfter(s.mgr, a.act);
    }
  }

  lemma TimerMgrIs(s: State, a: Act)
    requires Enabled(s, a) && a.Timer?
    ensures E.Enabled(s.mgr, a.act) && Next(s, a).mgr == E.Next(s.mgr, a.act) && Next(s, a).up == s.up
  {
  }

  lemma TimerActs(s: State, a: Act)
    requires Inv(s) && Enabled(s, a) && a.Timer?
    ensures a.act.Expire? || a.act.Section? || a.act.Release?
    ensures a.act.Section? ==> a.act.c == E.TIMER && E.TIMER in s.mgr.sys.senders && s.mgr.sys.senders[E.TIMER].WantsSend?
  {
  }

  lemma OtherDescends(s: State, a: Act)
    requires Inv(s) && Enabled(s, a) && !s.terminated
    requires a.Attach? || a.Signal? || a.WorkerStep? || a.Unlock? || a.SignalDone?
    ensures Descends(s, a)
  {
    hide Inv, Before, C.InFlight, E.Enabled, E.Next, Next;
    MainAfter(s, a);
    FlagsAfter(s, a);
    WorkAfter(s, a);
    SameLoop(s, a);
    SendingIfWorking(s, a);
  }

  lemma SameLoop(s: State, a: Act)
    requires Enabled(s, a) && (a.Attach? || a.Signal? || a.WorkerStep? || a.Unlock? || a.SignalDone?)
    ensures Next(s, a).mgr == s.mgr && Next(s, a).up == s.up
  {
  }

  lemma SendingIfWorking(s: State, a: Act)
    requires Inv(s) && Enabled(s, a) && !s.terminated
    ensures a.Attach? ==> !Awaiting(s)
  {
  }

  lemma StepDescends(s: State, a: Act)
    requires Inv(s) && Enabled(s, a)
    ensures Descends(s, a)
  {
    hide Inv, Enabled, Next, M;
    if a.MainStep? {
      MainDescends(s, a);
    } else if !Awaiting(s) {
      NotAwaitingDescends(s, a);
    } else if s.terminated {
      TerminatedDescends(s, a);
    } else {
      match a {
        case Dispatch(_) => DispatchDescends(s, a);
        case Up(_) => LoopDescends(s, a);
        case Loop(act) => if act.Take? { TakeDescends(s, a); } else { LoopDescends(s, a); }
        case Timer(_) => TimerDescends(s, a);
        case _ => OtherDescends(s, a);
      }
    }
  }

  lemma NotAwaitingDescends(s: State, a: Act)
    requires Enabled(s, a) && !a.MainStep? && !Awaiting(s)
    ensures Descends(s, a)
  {
  }

  // ---- somebody can always make progress ----

  datatype Party = MainThread | Manager | TimerThread

  /** The steps a thread takes on its own account. Starting another expiry and giving up a wait are not among them. */
  predicate TakenBy(p: Party, a: Act) {
    match p
    case MainThread => a.MainStep?
    case TimerThread => a.Timer? && (a.act.Section? || a.act.Release?)
    case Manager =>
      a.Up? || (a.Loop? && !a.act.Timeout?) || a.Dispatch? || a.WorkerStep? || a.Unlock? || a.SignalDone?
  }

  ghost predicate CanStep(s: State, p: Party) {
    exists a :: TakenBy(p, a) && Enabled(s, a)
  }

  /** Party `p` can bring the handshake nearer to its end. */
  predicate Ready(s: State, p: Party) {
    var k := s.mgr.sys;
    match p
    case MainThread =>
      || s.main.Attaching?
      || (s.main.WaitInitiate? && s.initiate > 0)
      || (s.main.WaitInitiated? && s.initiated > 0)
      || MainMoves(s.main)
    case Manager =>
      && Awaiting(s)
      && (!s.handler.NoHandler? ||
          (!s.terminated && (!s.up || k.rx.Holding? || k.rx.Passing? || (k.rx.Idle? && k.core.permits > 0))))
    case TimerThread =>
      && Awaiting(s) && s.handler.NoHandler? && !s.terminated && s.up && k.rx.Idle? && k.core.permits == 0
      && E.TIMER in k.senders && k.senders[E.TIMER].Releasing?
  }

  lemma MainCanStep(s: State)
    requires CallersInv(s) && Ready(s, MainThread)
    ensures CanStep(s, MainThread)
  {
    assert Enabled(s, MainStep(1));
    assert TakenBy(MainThread, MainStep(1));
  }

  lemma ManagerCanStep(s: State)
    requires Inv(s) && Ready(s, Manager)
    ensures CanStep(s, Manager)
  {
    if !s.handler.NoHandler? {
      HandlerCanStep(s);
    } else {
      ShutdownIsAhead(s);
      LoopCanStep(s);
    }
  }

  lemma HandlerCanStep(s: State)
    requires Awaiting(s) && !s.handler.NoHandler?
    ensures CanStep(s, Manager)
  {
    var a := SignalDone(1);
    if !s.handler.Initiated? {
      if s.handler.todo == {} {
        a := Unlock;
      } else {
        Inhabited(s.handler.todo);
        var w :| w in s.handler.todo;
        a := WorkerStep(w);
      }
    }
    assert TakenBy(Manager, a) && Enabled(s, a);
  }

  lemma LoopCanStep(s: State)
    requires PlaceInv(s) && Ready(s, Manager) && s.handler.NoHandler?
    requires !s.mgr.stopRequested && !s.mgr.sys.rx.Dropped? && s.mgr.phase.Running?
    ensures CanStep(s, Manager)
  {
    var rx := s.mgr.sys.rx;
    var a := if !s.up then Up(0)
      else if rx.Holding? then Loop(E.Take)
      else if rx.Idle? then Loop(E.Acquire)
      else if |rx.rest| > 0 then Act.Dispatch(1) else Loop(E.EndPass(1));
    assert TakenBy(Manager, a) && Enabled(s, a);
  }

  lemma TimerCanStep(s: State)
    requires Ready(s, TimerThread)
    ensures CanStep(s, TimerThread)
  {
    var a := Timer(E.Release(E.TIMER, 1));
    assert TakenBy(TimerThread, a) && Enabled(s, a);
  }

  lemma ReadyCanStep(s: State, p: Party)
    requires Inv(s) && Ready(s, p)
    ensures CanStep(s, p)
  {
    match p {
      case MainThread => MainCanStep(s);
      case Manager => ManagerCanStep(s);
      case TimerThread => TimerCanStep(s);
    }
  }

  /** The handshake is never deadlocked. When the manager sleeps on a queue that holds the Shutdown event, the only one
    who can owe it a wake-up is the timer thread. */
  lemma SomebodyIsReady(s: State)
    requires Inv(s) && Signalled(s) && !s.main.Past?
    ensures exists p :: Ready(s, p)
  {
    if Ready(s, MainThread) {
    } else if s.main.WaitInitiated? && s.handler.NoHandler? && !Ready(s, Manager) {
      NotTerminatedYet(s);
      ShutdownIsAhead(s);
      SleeperIsOwedAWakeUp(s);
      assert Ready(s, TimerThread);
    } else {
      assert Ready(s, Manager);
    }
  }

  lemma NotTerminatedYet(s: State)
    requires HandlerInv(s) && s.main.WaitInitiated? && s.handler.NoHandler? && s.initiated == 0
    ensures !s.terminated
  {
  }

  lemma SleeperIsOwedAWakeUp(s: State)
    requires Inv(s) && s.main.WaitInitiated? && s.mgr.sys.rx.Idle? && s.mgr.sys.core.permits == 0
    requires !s.mgr.sys.core.disconnected && Event.Shutdown in s.mgr.sys.core.queue
    ensures E.TIMER in s.mgr.sys.senders && s.mgr.sys.senders[E.TIMER].Releasing?
  {
  }

  /** Whatever a party that is ready does is progress. */
  lemma ReadyMakesProgress(s: State, a: Act, p: Party)
    requires Inv(s) && Enabled(s, a) && Ready(s, p) && TakenBy(p, a)
    ensures Progress(s, a)
  {
    if p.Manager? && s.handler.NoHandler? {
      ShutdownIsAhead(s);
      if a.Loop? {
        LoopPlace(s, a);
      }
      NotHandling(s, a);
    } else if p.Manager? {
      BusyManagerOnlyHandles(s, a);
    } else if p.TimerThread? {
      TimerReleases(s, a);
    }
  }

  lemma TimerReleases(s: State, a: Act)
    requires Enabled(s, a) && Ready(s, TimerThread) && TakenBy(TimerThread, a)
    ensures a.act.Release?
  {
  }

  /** Who can make progress keeps being able to until progress is made. */
  lemma ReadyStays(s: State, b: Act, p: Party)
    requires Inv(s) && Enabled(s, b) && Ready(s, p) && !Progress(s, b)
    ensures Ready(Next(s, b), p)
  {
    hide Next, Inv, E.Enabled, E.Next;
    MainAfter(s, b);
    FlagsAfter(s, b);
    WorkAfter(s, b);
    if p.MainThread? {
      SignalsAfter(s, b);
    } else if !s.handler.NoHandler? {
      BusyManagerOnlyHandles(s, b);
    } else {
      IdleStays(s, b);
    }
  }

  lemma SignalsAfter(s: State, b: Act)
    requires Enabled(s, b) && !b.MainStep?
    ensures s.initiate > 0 ==> Next(s, b).initiate > 0
    ensures s.initiated > 0 ==> Next(s, b).initiated > 0
  {
  }

  lemma BusyManagerOnlyHandles(s: State, b: Act)
    requires Enabled(s, b) && !s.handler.NoHandler?
    ensures !b.Dispatch? && !b.Loop?
  {
  }

  /** What the waiting rests on is not undone by a step that is not progress. */
  ghost predicate IdleKept(k: C.Sys<Event>, t: C.Sys<Event>) {
    && t.rx == k.rx && (k.core.permits > 0 ==> t.core.permits > 0)
    && (k.core.permits == 0 && k.rx.Idle? && E.TIMER in k.senders && k.senders[E.TIMER].Releasing? ==>
          t.core.permits == 0 && E.TIMER in t.senders && t.senders[E.TIMER].Releasing?)
  }

  lemma IdleStays(s: State, b: Act)
    requires Inv(s) && Enabled(s, b) && Awaiting(s) && s.handler.NoHandler? && !s.terminated && !Progress(s, b)
    ensures Next(s, b).up == s.up && (s.up ==> IdleKept(s.mgr.sys, Next(s, b).mgr.sys))
    ensures Next(s, b).mgr.sys.rx == s.mgr.sys.rx
  {
    hide Inv, Next, Enabled, E.Enabled;
    ShutdownIsAhead(s);
    if b.Timer? {
      TimerKeepsIdle(s, b);
    } else if b.Loop? {
      LoopKeepsIdle(s, b);
    } else {
      NotHandling(s, b);
      SameLoop(s, b);
    }
  }

  lemma TimerKeepsIdle(s: State, b: Act)
    requires Inv(s) && Enabled(s, b) && b.Timer? && Awaiting(s) && !s.terminated && !Progress(s, b)
    ensures Next(s, b).up == s.up && (s.up ==> IdleKept(s.mgr.sys, Next(s, b).mgr.sys))
    ensures Next(s, b).mgr.sys.rx == s.mgr.sys.rx
  {
    TimerActs(s, b);
    TimerMgrIs(s, b);
    TimerWaits(s, b);
    hide Next, Inv, Enabled, E.Enabled, E.Next;
    E.RxAfter(s.mgr, b.act);
    E.QueueAfter(s.mgr, b.act);
    E.CallersAfter(s.mgr, b.act);
  }

  /** A caller that has to release does nothing else first. */
  lemma TimerWaits(s: State, b: Act)
    requires Enabled(s, b) && b.Timer?
    ensures E.TIMER in s.mgr.sys.senders && s.mgr.sys.senders[E.TIMER].Releasing? ==> b.act.Release?
  {
    hide E.Next;
  }

  lemma LoopKeepsIdle(s: State, b: Act)
    requires Inv(s) && Enabled(s, b) && b.Loop? && Awaiting(s) && !s.terminated && !Progress(s, b)
    requires !s.mgr.stopRequested && !s.mgr.sys.rx.Dropped? && s.mgr.phase.Running?
    ensures Next(s, b).up == s.up && IdleKept(s.mgr.sys, Next(s, b).mgr.sys)
  {
    LoopPlace(s, b);
    hide Next, Inv, E.Enabled, E.Next;
    MgrIs(s, b);
    E.RxAfter(s.mgr, b.act);
    E.QueueAfter(s.mgr, b.act);
    E.CallersAfter(s.mgr, b.act);
  }

  lemma NotHandling(s: State, b: Act)
    requires Enabled(s, b) && s.handler.NoHandler? && Awaiting(s)
    ensures !b.WorkerStep? && !b.Unlock? && !b.SignalDone? && !b.Attach?
  {
  }

  // ---- infinite runs ----

  ghost predicate IsRun(tr: nat -> State, acts: nat -> Act) {
    tr(0) == Init() && forall i: nat :: StepAt(tr, acts, i)
  }

  ghost predicate StepAt(tr: nat -> State, acts: nat -> Act, i: nat) {
    Enabled(tr(i), acts(i)) && tr(i + 1) == Next(tr(i), acts(i))
  }

  ghost function Can(tr: nat -> State): (nat, Party) -> bool {
    (i: nat, p: Party) => CanStep(tr(i), p)
  }

  ghost function Moves(acts: nat -> Act): (nat, Party) -> bool {
    (i: nat, p: Party) => TakenBy(p, acts(i))
  }

  lemma {:induction false} InvAt(tr: nat -> State, acts: nat -> Act, i: nat)
    requires IsRun(tr, acts)
    ensures Inv(tr(i))
  {
    hide Inv, Init, Enabled, Next;
    if i == 0 {
      InitHasInv();
    } else {
      InvAt(tr, acts, i - 1);
      assert StepAt(tr, acts, i - 1);
      StepKeepsInv(tr(i - 1), acts(i - 1));
    }
  }

  lemma SignalledStays(s: State, a: Act)
    requires Signalled(s) && Enabled(s, a)
    ensures Signalled(Next(s, a))
  {
    hide Next;
    MainAfter(s, a);
    if !a.MainStep? {
      SignalsAfter(s, a);
    } else {
      OnlyWaitTakesTheSignal(s, a);
    }
  }

  lemma OnlyWaitTakesTheSignal(s: State, a: Act)
    requires Enabled(s, a) && a.MainStep?
    ensures s.main.Attaching? ==> Next(s, a).initiate == s.initiate
  {
  }

  lemma {:induction false} SignalledFrom(tr: nat -> State, acts: nat -> Act, n: nat, k: nat)
    requires IsRun(tr, acts) && n <= k && Signalled(tr(n))
    ensures Signalled(tr(k))
    decreases k
  {
    hide Init, Enabled, Next, Signalled;
    if k == n {
    } else {
      SignalledFrom(tr, acts, n, k - 1);
      assert StepAt(tr, acts, k - 1);
      SignalledStays(tr(k - 1), acts(k - 1));
    }
  }

  lemma HandshakeAdvances(tr: nat -> State, acts: nat -> Act, i: nat)
    requires Inv(tr(i)) && Signalled(tr(i)) && StepAt(tr, acts, i)
    ensures LessOrEqual(M(tr(i + 1)), M(tr(i)))
    ensures tr(i).main.Past? || exists p :: Ready(tr(i), p)
    ensures forall p :: Ready(tr(i), p) ==>
      CanStep(tr(i), p) &&
      (TakenBy(p, acts(i)) || !Ready(tr(i + 1), p) ==> Less(M(tr(i + 1)), M(tr(i))))
  {
    hide Inv, Enabled, Next, M, Ready, TakenBy, Less, Signalled, CanStep, Progress;
    StepDescends(tr(i), acts(i));
    if !tr(i).main.Past? {
      SomebodyIsReady(tr(i));
    }
    forall p | Ready(tr(i), p)
      ensures CanStep(tr(i), p)
      ensures TakenBy(p, acts(i)) || !Ready(tr(i + 1), p) ==> Less(M(tr(i + 1)), M(tr(i)))
    {
      ReadyCanStep(tr(i), p);
      if TakenBy(p, acts(i)) {
        ReadyMakesProgress(tr(i), acts(i), p);
      }
      if !Progress(tr(i), acts(i)) {
        ReadyStays(tr(i), acts(i), p);
      }
    }
  }

  /** The handshake completes. In every weakly fair infinite run in which a shutdown signal is released, main gets past
    its `Stop` call, whatever the timer thread keeps appending and however often further signals arrive. */
  lemma ShutdownCompletes(tr: nat -> State, acts: nat -> Act, n: nat)
    requires IsRun(tr, acts) && WeaklyFair(Can(tr), Moves(acts)) && Signalled(tr(n))
    ensures exists m: nat :: n <= m && tr(m).main.Past?
  {
    hide Inv, Init, Enabled, Next, M, Ready, TakenBy, Less, Signalled, WeaklyFair, CanStep;
    var rank, done := (i: nat) => M(tr(i)), (i: nat) => tr(i).main.Past?;
    var ready := (i: nat, p: Party) => Ready(tr(i), p);
    forall i: nat | n <= i ensures Advances(rank, done, ready, Can(tr), Moves(acts), i) {
      InvAt(tr, acts, i);
      SignalledFrom(tr, acts, n, i);
      assert StepAt(tr, acts, i);
      HandshakeAdvances(tr, acts, i);
      if !done(i) {
        var p :| Ready(tr(i), p);
        assert ready(i, p);
      }
    }
    LeadsTo(rank, done, ready, Can(tr), Moves(acts), n);
  }
}
