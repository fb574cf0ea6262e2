/** The shutdown handshake of src/main/manager_thread.cpp in the program order of src/main/main.cpp: the main thread, the
  manager's event loop and the handlers it runs, the timer thread that keeps sending expiries, and any number of exit
  signals. */
module Shutdown {
  import opened Events
  import opened Channel
  import C = ChannelRuns
  import E = EventLoop
  import T = LoopTimers

  /** The main thread among the manager's callers; the timer thread is `E.TIMER`. */
  const MAIN: nat := 1

  /** Where `main` and `WaitForShutdown` stand. */
  datatype MainPc =
    | Attaching
    | WaitInitiate  // m_shutdownInitiateSignal.acquire()
    | Transmit  // TransmitEvent(Shutdown): before the check, the locked section, the release
    | SendSection
    | SendRelease
    | WaitInitiated  // m_shutdownInitiatedSignal.acquire()
    | StopCheck  // Stop(): before the check, the store, the locked section, the release
    | StopStore
    | StopSection
    | StopRelease
    | Past

  /** Where the handler the manager is running stands. The first two hold `m_workersMtx`; `todo` are the workers the
    loop has yet to reach, in an order that is not specified. */
  datatype Handler =
    | NoHandler
    | SendingTests(todo: set<nat>)
    | Tearing(todo: set<nat>)
    | Initiated  // teardown done, m_shutdownInitiatedSignal not yet released

  /** `worker->TransmitEvent(WorkerTest)` and `worker->Stop()`. */
  datatype WorkerCall = Test(worker: nat) | StopCall(worker: nat)

  datatype State = State(
    mgr: E.Loop,
    main: MainPc,
    up: bool,  // the manager has run `Starting`
    transmitTimer: TimerId,
    initiate: nat,
    initiated: nat,
    workers: set<nat>,
    terminated: bool,
    handler: Handler,
    calls: seq<WorkerCall>,
    shutdownsHandled: nat)

  datatype Act =
    | Attach(w: nat)
    | MainStep(to: nat)
    | Signal(to: nat)  // an exit signal: `RequestShutdown`
    | Timer(act: E.Act)  // the timer thread sends an expiry to the manager, step by step
    | Up(id: TimerId)
    | Loop(act: E.Act)  // the manager's own loop, except for dispatching
    | Dispatch(to: nat)
    | WorkerStep(w: nat)
    | Unlock
    | SignalDone(to: nat)

  function Init(): State {
    State(E.Init(), Attaching, false, 0, 0, 0, {}, false, NoHandler, [], 0)
  }

  predicate TimerMove(a: E.Act) {
    a.Expire? || (a.Section? && a.c == E.TIMER) || (a.Release? && a.c == E.TIMER)
  }

  predicate LoopMove(a: E.Act) {
    a.Acquire? || a.Timeout? || a.Take? || a.EndPass? || a.Leave? || a.BeginClose? || a.CloseTimer? || a.End?
  }

  /** What the main thread does to the manager's channel at its present place. */
  function MainMove(s: State, to: nat): E.Act {
    match s.main
    case Transmit => E.Transmit(MAIN, Event.Shutdown)
    case SendSection => E.Section(MAIN)
    case SendRelease => E.Release(MAIN, to)
    case StopCheck => if s.mgr.stopping then E.Refused(MAIN) else E.StopCheck(MAIN)
    case StopStore => E.StopStore(MAIN)
    case StopSection => E.Section(MAIN)
    case StopRelease => E.Release(MAIN, to)
    case _ => E.End  // no move
  }

  predicate MainMoves(pc: MainPc) {
    pc.Transmit? || pc.SendSection? || pc.SendRelease? || pc.StopCheck? || pc.StopStore? || pc.StopSection? ||
    pc.StopRelease?
  }

  predicate Enabled(s: State, a: Act) {
    match a
    case Attach(_) => s.main.Attaching? && !s.handler.SendingTests? && !s.handler.Tearing?
    case MainStep(to) =>
      (match s.main
       case Attaching => true
       case WaitInitiate => s.initiate > 0
       case WaitInitiated => s.initiated > 0
       case Past => false
       case _ => E.Enabled(s.mgr, MainMove(s, to)))
    case Signal(to) => 1 <= to <= s.initiate + 1
    case Timer(act) => TimerMove(act) && E.Enabled(s.mgr, act)
    case Up(id) => !s.up && E.Enabled(s.mgr, E.StartTimer(id))
    case Loop(act) => s.up && s.handler.NoHandler? && LoopMove(act) && E.Enabled(s.mgr, act)
    case Dispatch(to) => s.up && s.handler.NoHandler? && s.mgr.phase.Running? && E.Enabled(s.mgr, E.Dispatch(to))
    case WorkerStep(w) => (s.handler.SendingTests? || s.handler.Tearing?) && w in s.handler.todo
    case Unlock => (s.handler.SendingTests? || s.handler.Tearing?) && s.handler.todo == {}
    case SignalDone(to) => s.handler.Initiated? && 1 <= to <= s.initiated + 1
  }

  /** The step of the manager's event loop that a step is, if it is one. */
  function MgrMove(s: State, a: Act): seq<E.Act> {
    match a
    case MainStep(to) => if MainMoves(s.main) then [MainMove(s, to)] else []
    case Timer(act) => [act]
    case Up(id) => [E.StartTimer(id)]
    case Loop(act) => [act]
    case Dispatch(to) => [E.Dispatch(to)]
    case _ => []
  }

  function MgrNext(s: State, a: Act): E.Loop
    requires Enabled(s, a)
  {
    if |MgrMove(s, a)| == 0 then s.mgr else E.Next(s.mgr, MgrMove(s, a)[0])
  }

  function AfterMain(s: State): MainPc {
    match s.main
    case Attaching => WaitInitiate
    case WaitInitiate => Transmit
    case Transmit => SendSection
    case SendSection => if s.mgr.sys.core.disconnected then WaitInitiated else SendRelease
    case SendRelease => WaitInitiated
    case WaitInitiated => StopCheck
    case StopCheck => if s.mgr.stopping then Past else StopStore
    case StopStore => StopSection
    case StopSection => if s.mgr.sys.core.disconnected then Past else StopRelease
    case _ => Past
  }

  /** `InitiateShutdown` up to its loop: the teardown runs once. */
  function BeginShutdown(s: State): State {
    if s.terminated then s.(handler := Initiated)
    else s.(terminated := true, handler := Tearing(s.workers))
  }

  function Next(s: State, a: Act): State
    requires Enabled(s, a)
  {
    var t := s.(mgr := MgrNext(s, a));
    match a
    case Attach(w) => t.(workers := s.workers + {w})
    case MainStep(_) =>
      t.(main := AfterMain(s),
         initiate := if s.main.WaitInitiate? then s.initiate - 1 else s.initiate,
         initiated := if s.main.WaitInitiated? then s.initiated - 1 else s.initiated)
    case Signal(to) => t.(initiate := to)
    case Timer(_) => t
    case Up(id) => t.(up := true, transmitTimer := id)
    case Loop(_) => t
    case Dispatch(_) =>
      (match s.mgr.sys.rx.rest[0]
       case Shutdown =>
         var mgr := if s.terminated then t.mgr else E.Next(t.mgr, E.StopTimer(s.transmitTimer));
         BeginShutdown(t).(mgr := mgr, shutdownsHandled := s.shutdownsHandled + 1)
       case Expired(id) =>
         // SendEventsToWorkers, the callback of the only timer the manager starts
         if id in s.mgr.timers && !s.terminated then t.(handler := SendingTests(s.workers)) else t
       case _ => t)
    case WorkerStep(w) =>
      (match s.handler
       case SendingTests(todo) => t.(handler := SendingTests(todo - {w}), calls := s.calls + [Test(w)])
       case _ => t.(handler := Tearing(s.handler.todo - {w}), calls := s.calls + [StopCall(w)]))
    case Unlock => t.(handler := if s.handler.Tearing? then Initiated else NoHandler)
    case SignalDone(to) => t.(handler := NoHandler, initiated := to)
  }

  predicate Valid(s: State, acts: seq<Act>)
    decreases |acts|, 0
  {
    |acts| == 0 ||
    var n := |acts| - 1;
    Valid(s, acts[..n]) && Enabled(Run(s, acts[..n]), acts[n])
  }

  function Run(s: State, acts: seq<Act>): State
    requires Valid(s, acts)
    decreases |acts|, 1
  {
    if |acts| == 0 then s else
    var n := |acts| - 1;
    Next(Run(s, acts[..n]), acts[n])
  }

  lemma RunSnoc(s: State, acts: seq<Act>, a: Act)
    requires Valid(s, acts) && Enabled(Run(s, acts), a)
    ensures Valid(s, acts + [a]) && Run(s, acts + [a]) == Next(Run(s, acts), a)
  {
    assert (acts + [a])[..|acts|] == acts;
  }

  // ---- the manager's loop keeps its own invariant ----

  /** The dispatch that starts the teardown. */
  predicate TearsDown(s: State, a: Act)
    requires Enabled(s, a)
  {
    a.Dispatch? && s.mgr.sys.rx.rest[0].Shutdown? && !s.terminated
  }

  lemma MgrAfter(s: State, a: Act)
    requires Enabled(s, a)
    ensures |MgrMove(s, a)| > 0 ==> E.Enabled(s.mgr, MgrMove(s, a)[0])
    ensures TearsDown(s, a) ==> E.Enabled(MgrNext(s, a), E.StopTimer(s.transmitTimer))
    ensures Next(s, a).mgr ==
      if TearsDown(s, a) then E.Next(MgrNext(s, a), E.StopTimer(s.transmitTimer)) else MgrNext(s, a)
  {
  }

  lemma StepKeepsMgrInv(s: State, a: Act)
    requires E.Inv(s.mgr) && Enabled(s, a)
    ensures E.Inv(Next(s, a).mgr)
  {
    hide E.Inv, E.Enabled, E.Next, Enabled, Next, TearsDown;
    MgrAfter(s, a);
    if |MgrMove(s, a)| > 0 {
      E.StepKeepsInv(s.mgr, MgrMove(s, a)[0]);
    }
    if TearsDown(s, a) {
      E.StepKeepsInv(MgrNext(s, a), E.StopTimer(s.transmitTimer));
    }
  }

  lemma ExtraIsEnabled(s: E.Loop, a: E.Act)
    requires E.Enabled(s, a)
    ensures E.ExitsNow(s, a) ==> C.Enabled(C.Next(s.sys, E.ChannelAct(a)), C.Extra(a.to))
  {
  }

  /** What a step of the manager's loop does to its stream of events and to its history. */
  lemma StreamAfter(s: E.Loop, a: E.Act)
    requires E.Enabled(s, a)
    ensures var k, t := s.sys, E.Next(s, a).sys;
      && t.delivered == k.delivered + (if a.Dispatch? then [k.rx.rest[0]] else [])
      && (if a.Section? && k.core.disconnected then
            C.Stream(t) == C.Stream(k) && t.core.log == k.core.log &&
            t.core.dropped == k.core.dropped + [k.senders[a.c].value]
          else if a.Section? then
            t.core.dropped == k.core.dropped && t.core.log == k.core.log + [k.senders[a.c].value] &&
            C.Stream(t) ==
              (if k.senders[a.c].WantsSend? then C.Stream(k) else k.delivered + C.InFlight(k)) + [k.senders[a.c].value]
          else C.Stream(t) == C.Stream(k) && t.core.log == k.core.log && t.core.dropped == k.core.dropped)
  {
    ExtraIsEnabled(s, a);
    hide C.Next, C.Stream, C.InFlight;
    if E.OnChannel(a) {
      C.StreamAfter(s.sys, E.ChannelAct(a));
      if E.ExitsNow(s, a) {
        C.StreamAfter(C.Next(s.sys, E.ChannelAct(a)), C.Extra(a.to));
      }
    }
  }

  // ---- the main thread and the manager's channel ----

  predicate Accepted(pc: MainPc) {
    !(pc.Attaching? || pc.WaitInitiate? || pc.Transmit? || pc.SendSection?)
  }

  predicate ExitSent(pc: MainPc) {
    pc.StopRelease? || pc.Past?
  }

  predicate CallersInv(s: State) {
    var k := s.mgr.sys.senders;
    && k.Keys <= {E.TIMER, MAIN}
    && (E.TIMER in k ==> !k[E.TIMER].WantsFlush?)
    && (match s.main
        case SendSection => MAIN in k && k[MAIN] == C.WantsSend(Event.Shutdown)
        case SendRelease => MAIN in k && k[MAIN].Releasing?
        case StopSection => MAIN in k && k[MAIN] == C.WantsFlush(Exit)
        case StopRelease => MAIN in k && k[MAIN].Releasing?
        case _ => MAIN !in k)
    && s.mgr.stopChecked == (if s.main.StopStore? then {MAIN} else {})
    && (s.mgr.stopping <==> s.main.StopSection? || ExitSent(s.main))
  }

  /** Until main has flushed, no Exit is anywhere and the manager's receiver is there. */
  ghost predicate NoExitYet(s: State) {
    !ExitSent(s.main) ==> Exit !in C.Stream(s.mgr.sys) && !s.mgr.sys.core.disconnected
  }

  lemma MainKeepsCallersInv(s: State, a: Act)
    requires CallersInv(s) && NoExitYet(s) && Enabled(s, a) && a.MainStep?
    ensures CallersInv(Next(s, a))
  {
    hide E.Next, Next, C.Stream;
    MgrAfter(s, a);
    MainAfter(s, a);
    if |MgrMove(s, a)| > 0 {
      E.CallersAfter(s.mgr, MgrMove(s, a)[0]);
    }
  }

  lemma OtherKeepsCallersInv(s: State, a: Act)
    requires CallersInv(s) && Enabled(s, a) && !a.MainStep?
    ensures CallersInv(Next(s, a))
  {
    hide E.Next, Next;
    MgrAfter(s, a);
    MainAfter(s, a);
    if |MgrMove(s, a)| > 0 {
      E.CallersAfter(s.mgr, MgrMove(s, a)[0]);
    }
    if TearsDown(s, a) {
      E.CallersAfter(MgrNext(s, a), E.StopTimer(s.transmitTimer));
    }
  }

  lemma StepKeepsCallersInv(s: State, a: Act)
    requires CallersInv(s) && NoExitYet(s) && Enabled(s, a)
    ensures CallersInv(Next(s, a))
  {
    hide CallersInv, NoExitYet, Enabled, Next;
    if a.MainStep? {
      MainKeepsCallersInv(s, a);
    } else {
      OtherKeepsCallersInv(s, a);
    }
  }

  lemma MainAfter(s: State, a: Act)
    requires Enabled(s, a)
    ensures Next(s, a).main == if a.MainStep? then AfterMain(s) else s.main
  {
  }

  /** The steps that change the stream by more than moving an event along it: main's two sections, while the receiver is
    there, and the timer thread's. */
  predicate MainSends(s: State, a: Act) {
    a.MainStep? && (s.main.SendSection? || s.main.StopSection?)
  }

  predicate TimerSends(a: Act) {
    a.Timer? && a.act.Section?
  }

  ghost predicate Unstreamed(k: C.Sys<Event>, t: C.Sys<Event>) {
    C.Stream(t) == C.Stream(k) && t.core.log == k.core.log
  }

  ghost predicate Streamed(k: C.Sys<Event>, t: C.Sys<Event>, front: seq<Event>, e: Event) {
    C.Stream(t) == front + [e] && t.core.log == k.core.log + [e] && t.core.dropped == k.core.dropped
  }

  lemma StreamOfStep(s: State, a: Act)
    requires CallersInv(s) && Enabled(s, a)
    ensures var k, t := s.mgr.sys, Next(s, a).mgr.sys;
      && t.delivered == k.delivered + (if a.Dispatch? then [k.rx.rest[0]] else [])
      && (MainSends(s, a) && s.main.SendSection? && !k.core.disconnected ==>
            Streamed(k, t, C.Stream(k), Event.Shutdown))
      && (MainSends(s, a) && s.main.StopSection? && !k.core.disconnected ==>
            Streamed(k, t, k.delivered + C.InFlight(k), Exit))
      && (TimerSends(a) && !k.core.disconnected ==> Streamed(k, t, C.Stream(k), k.senders[E.TIMER].value))
      && (TimerSends(a) && k.core.disconnected ==>
            Unstreamed(k, t) && t.core.dropped == k.core.dropped + [k.senders[E.TIMER].value])
      && (!MainSends(s, a) && !TimerSends(a) ==> Unstreamed(k, t) && t.core.dropped == k.core.dropped)
  {
    hide E.Next, Next, C.Stream, C.InFlight;
    MgrAfter(s, a);
    if |MgrMove(s, a)| > 0 {
      StreamAfter(s.mgr, MgrMove(s, a)[0]);
    }
    if TearsDown(s, a) {
      StreamAfter(MgrNext(s, a), E.StopTimer(s.transmitTimer));
    }
  }

  lemma StepKeepsNoExitYet(s: State, a: Act)
    requires E.Inv(s.mgr) && CallersInv(s) && NoExitYet(s) && Enabled(s, a)
    ensures NoExitYet(Next(s, a))
  {
    hide E.Next, Next, E.Inv, C.Stream;
    StreamOfStep(s, a);
    MainAfter(s, a);
    StopsOnlyOnExit(s);
    TimerSendsExpiries(s);
    if !s.mgr.sys.core.disconnected {
      DisconnectsOnlyOnLeave(s, a);
    }
  }

  lemma StopsOnlyOnExit(s: State)
    requires E.Inv(s.mgr)
    ensures s.mgr.stopRequested ==> Exit in C.Stream(s.mgr.sys)
  {
  }

  lemma TimerSendsExpiries(s: State)
    requires E.Inv(s.mgr)
    ensures var k := s.mgr.sys.senders;
      E.TIMER in k && k[E.TIMER].WantsSend? ==> k[E.TIMER].value.Expired?
  {
  }

  lemma DisconnectsOnlyOnLeave(s: State, a: Act)
    requires Enabled(s, a) && !s.mgr.sys.core.disconnected
    ensures Next(s, a).mgr.sys.core.disconnected ==> s.mgr.stopRequested
  {
    hide Next;
    MgrAfter(s, a);
  }

  // ---- where the manager's loop stands ----

  predicate AfterWait(pc: MainPc) {
    pc.StopCheck? || pc.StopStore? || pc.StopSection? || pc.StopRelease? || pc.Past?
  }

  predicate HandlerInv(s: State) {
    && (s.handler.Tearing? || s.handler.Initiated? ==>
          s.terminated && s.initiated == 0 && (s.main.SendRelease? || s.main.WaitInitiated?))
    && (s.handler.SendingTests? ==> !s.terminated)
    && (s.handler.SendingTests? || s.handler.Tearing? ==> s.handler.todo <= s.workers)
    && s.initiated <= 1
    && (s.initiated > 0 ==> s.terminated && s.handler.NoHandler? && (s.main.SendRelease? || s.main.WaitInitiated?))
    && (AfterWait(s.main) ==> s.terminated && s.handler.NoHandler?)
    && (s.terminated && s.handler.NoHandler? ==> s.initiated > 0 || AfterWait(s.main))
    && (s.terminated ==> Accepted(s.main))
  }

  predicate PlaceInv(s: State) {
    && (!s.handler.NoHandler? ==> s.mgr.sys.rx.Passing?)
    && (!s.mgr.sys.rx.Dropped? ==> s.mgr.phase.Running?)
    && (!s.mgr.sys.rx.Idle? ==> s.up)
    && (!s.up ==> s.mgr.started == {})
    && (s.terminated ==> s.up)
  }

  lemma StepKeepsPlaceInv(s: State, a: Act)
    requires PlaceInv(s) && Enabled(s, a)
    ensures PlaceInv(Next(s, a))
  {
    hide E.Next;
    MgrAfter(s, a);
    if |MgrMove(s, a)| > 0 {
      E.RxAfter(s.mgr, MgrMove(s, a)[0]);
    }
    if TearsDown(s, a) {
      E.RxAfter(MgrNext(s, a), E.StopTimer(s.transmitTimer));
    }
  }

  // ---- the Shutdown event ----

  function One(b: bool): nat {
    if b then 1 else 0
  }

  /** The Shutdown event is in the manager's stream from the moment it is accepted; it was neither flushed nor refused;
    and the teardown has begun exactly when it has been dispatched. */
  ghost predicate OneShutdown(s: State) {
    var k := s.mgr.sys;
    && T.Times(C.Stream(k), Event.Shutdown) == One(Accepted(s.main))
    && T.Times(k.core.log, Event.Shutdown) == One(Accepted(s.main))
    && Event.Shutdown !in k.core.dropped
    && T.Times(k.delivered, Event.Shutdown) == One(s.terminated)
    && s.shutdownsHandled == One(s.terminated)
  }

  lemma ShutdownInStream(k: C.Sys<Event>)
    ensures T.Times(C.Stream(k), Event.Shutdown) ==
      T.Times(k.delivered, Event.Shutdown) + T.Times(C.InFlight(k), Event.Shutdown) +
      T.Times(k.core.queue, Event.Shutdown)
    ensures T.Times(k.delivered + C.InFlight(k), Event.Shutdown) ==
      T.Times(k.delivered, Event.Shutdown) + T.Times(C.InFlight(k), Event.Shutdown)
    ensures k.rx.Passing? && |k.rx.rest| > 0 && k.rx.rest[0].Shutdown? ==> T.Times(C.InFlight(k), Event.Shutdown) > 0
  {
  }

  lemma FlagsAfter(s: State, a: Act)
    requires Enabled(s, a)
    ensures var t, shuts := Next(s, a), a.Dispatch? && s.mgr.sys.rx.rest[0].Shutdown?;
      && t.terminated == (s.terminated || shuts)
      && t.shutdownsHandled == s.shutdownsHandled + One(shuts)
  {
  }

  lemma StepKeepsOneShutdown(s: State, a: Act)
    requires E.Inv(s.mgr) && CallersInv(s) && NoExitYet(s) && HandlerInv(s) && OneShutdown(s) && Enabled(s, a)
    ensures OneShutdown(Next(s, a))
  {
    hide E.Next, Next, E.Inv, C.Stream, C.InFlight, T.Times, E.Enabled;
    var k := s.mgr.sys;
    StreamOfStep(s, a);
    MainAfter(s, a);
    FlagsAfter(s, a);
    TimerSendsExpiries(s);
    ShutdownInStream(k);
    if a.Dispatch? {
      DispatchHasBatch(s, a);
      T.TimesSnoc(k.delivered, k.rx.rest[0], Event.Shutdown);
      assert k.delivered + [] == k.delivered;
      AliveWhileDispatching(s, a);
    } else {
      assert k.delivered + [] == k.delivered;
      AppendCounts(k, Event.Shutdown);
      AppendCounts(k, Exit);
      if a.Timer? && a.act.Section? {
        TimerSectionHasSender(s, a);
        AppendCounts(k, k.senders[E.TIMER].value);
      }
    }
  }

  lemma DispatchHasBatch(s: State, a: Act)
    requires Enabled(s, a) && a.Dispatch?
    ensures s.mgr.sys.rx.Passing? && |s.mgr.sys.rx.rest| > 0
  {
  }

  lemma AliveWhileDispatching(s: State, a: Act)
    requires E.Inv(s.mgr) && Enabled(s, a) && a.Dispatch?
    ensures !s.mgr.sys.core.disconnected
  {
  }

  lemma AppendCounts(k: C.Sys<Event>, e: Event)
    ensures var x := Event.Shutdown;
      && T.Times(C.Stream(k) + [e], x) == T.Times(C.Stream(k), x) + One(e.Shutdown?)
      && T.Times(k.core.log + [e], x) == T.Times(k.core.log, x) + One(e.Shutdown?)
      && T.Times(k.delivered + C.InFlight(k) + [e], x) == T.Times(k.delivered + C.InFlight(k), x) + One(e.Shutdown?)
  {
  }

  lemma TimerSectionHasSender(s: State, a: Act)
    requires Enabled(s, a) && a.Timer? && a.act.Section?
    ensures E.TIMER in s.mgr.sys.senders && !s.mgr.sys.senders[E.TIMER].Releasing?
  {
  }

  lemma HandlerAfter(s: State, a: Act)
    requires Enabled(s, a)
    ensures var t := Next(s, a);
      && t.handler == (match a
                       case Dispatch(_) =>
                         var e := s.mgr.sys.rx.rest[0];
                         if e.Shutdown? then (if s.terminated then Initiated else Tearing(s.workers))
                         else if e.Expired? && e.id in s.mgr.timers && !s.terminated then SendingTests(s.workers)
                         else NoHandler
                       case WorkerStep(w) =>
                         if s.handler.SendingTests? then SendingTests(s.handler.todo - {w})
                         else Tearing(s.handler.todo - {w})
                       case Unlock => if s.handler.Tearing? then Initiated else NoHandler
                       case SignalDone(_) => NoHandler
                       case _ => s.handler)
      && t.initiated == (if a.SignalDone? then a.to
                         else if a.MainStep? && s.main.WaitInitiated? then s.initiated - 1 else s.initiated)
      && t.workers == (if a.Attach? then s.workers + {a.w} else s.workers)
      && t.calls == (if !a.WorkerStep? then s.calls
                     else s.calls + [if s.handler.SendingTests? then Test(a.w) else StopCall(a.w)])
  {
  }

  /** A second Shutdown is never dispatched, and none before main has sent it. */
  lemma DispatchedOnce(s: State, a: Act)
    requires OneShutdown(s) && Enabled(s, a) && a.Dispatch? && s.mgr.sys.rx.rest[0].Shutdown?
    ensures !s.terminated && Accepted(s.main)
  {
  }

  lemma StepKeepsHandlerInv(s: State, a: Act)
    requires CallersInv(s) && NoExitYet(s) && HandlerInv(s) && OneShutdown(s) && Enabled(s, a)
    ensures HandlerInv(Next(s, a))
  {
    hide Next, OneShutdown, CallersInv, E.Enabled, C.Stream;
    HandlerAfter(s, a);
    MainAfter(s, a);
    FlagsAfter(s, a);
    if a.Dispatch? {
      DispatchHasBatch(s, a);
      if s.mgr.sys.rx.rest[0].Shutdown? {
        DispatchedOnce(s, a);
      }
    } else if a.MainStep? {
      MainIsNotYetStopping(s);
    }
  }

  lemma MainIsNotYetStopping(s: State)
    requires CallersInv(s)
    ensures s.main.StopCheck? ==> !s.mgr.stopping
  {
  }

  // ---- the calls on the workers ----

  ghost predicate CallsInv(s: State) {
    forall w :: T.Times(s.calls, StopCall(w)) ==
      One(s.terminated && w in s.workers && !(s.handler.Tearing? && w in s.handler.todo))
  }

  lemma StepKeepsCallsInv(s: State, a: Act)
    requires HandlerInv(s) && OneShutdown(s) && CallsInv(s) && Enabled(s, a)
    ensures CallsInv(Next(s, a))
  {
    hide Next, OneShutdown, T.Times, E.Enabled;
    HandlerAfter(s, a);
    FlagsAfter(s, a);
    if a.WorkerStep? {
      forall w { T.TimesSnoc(s.calls, if s.handler.SendingTests? then Test(a.w) else StopCall(a.w), StopCall(w)); }
    } else if a.Dispatch? {
      DispatchHasBatch(s, a);
      if s.mgr.sys.rx.rest[0].Shutdown? {
        DispatchedOnce(s, a);
      }
    }
  }

  // ---- safety over whole runs ----

  ghost predicate Inv(s: State) {
    && E.Inv(s.mgr) && CallersInv(s) && NoExitYet(s) && HandlerInv(s) && PlaceInv(s) && OneShutdown(s) && CallsInv(s)
    && (Exit in s.mgr.sys.core.log <==> ExitSent(s.main))
  }

  lemma StepKeepsExitLogged(s: State, a: Act)
    requires E.Inv(s.mgr) && CallersInv(s) && Enabled(s, a) && (Exit in s.mgr.sys.core.log <==> ExitSent(s.main))
    requires NoExitYet(s)
    ensures Exit in Next(s, a).mgr.sys.core.log <==> ExitSent(Next(s, a).main)
  {
    hide Next, E.Inv, C.Stream, C.InFlight;
    StreamOfStep(s, a);
    MainAfter(s, a);
    TimerSendsExpiries(s);
    if TimerSends(a) {
      TimerSectionHasSender(s, a);
    }
  }

  lemma StepKeepsInv(s: State, a: Act)
    requires Inv(s) && Enabled(s, a)
    ensures Inv(Next(s, a))
  {
    hide Next, Enabled, E.Inv, CallersInv, NoExitYet, HandlerInv, PlaceInv, OneShutdown, CallsInv;
    StepKeepsMgrInv(s, a);
    StepKeepsCallersInv(s, a);
    StepKeepsNoExitYet(s, a);
    StepKeepsHandlerInv(s, a);
    StepKeepsPlaceInv(s, a);
    StepKeepsOneShutdown(s, a);
    StepKeepsCallsInv(s, a);
    StepKeepsExitLogged(s, a);
  }

  lemma {:induction false} RunKeepsInv(s: State, acts: seq<Act>)
    requires Inv(s) && Valid(s, acts)
    ensures Inv(Run(s, acts))
  {
    hide Inv, Next, Enabled;
    if |acts| == 0 {
    } else {
      var n := |acts| - 1;
      RunKeepsInv(s, acts[..n]);
      StepKeepsInv(Run(s, acts[..n]), acts[n]);
    }
  }

  lemma InitHasInv()
    ensures Inv(Init())
  {
  }

  /** Every worker has had exactly one stop call and nothing else has had any. */
  ghost predicate AllWorkersStopped(s: State) {
    forall w :: T.Times(s.calls, StopCall(w)) == One(w in s.workers)
  }

  /** Shutdown order, in every run and with any number of exit signals: once main has sent the Shutdown event it has been
    accepted, exactly once; it is never flushed and never refused; it is handled at most once, and exactly once before
    main goes on to stop the manager; every worker attached has by then been stopped exactly once; and the manager's own
    Exit enters its queue only after all of that. */
  lemma ShutdownOrder(acts: seq<Act>)
    requires Valid(Init(), acts)
    ensures var s := Run(Init(), acts);
      var k := s.mgr.sys.core;
      && |k.log| == |k.marks|
      && multiset(k.log)[Event.Shutdown] ==
         (if s.main.Attaching? || s.main.WaitInitiate? || s.main.Transmit? || s.main.SendSection? then 0 else 1)
      && Event.Shutdown !in k.dropped && Event.Shutdown !in Discarded(k.log, k.marks)
      && s.shutdownsHandled <= 1
      && (Exit in k.log || s.main.StopCheck? || s.main.StopStore? || s.main.StopSection? || s.main.StopRelease? ||
          s.main.Past? ==>
            && s.shutdownsHandled == 1
            && forall w :: multiset(s.calls)[StopCall(w)] == if w in s.workers then 1 else 0)
  {
    InitHasInv();
    RunKeepsInv(Init(), acts);
    var s := Run(Init(), acts);
    hide Inv;
    OrderFromInv(s);
    if AllWorkersStopped(s) {
      StoppedOnce(s);
    }
  }

  lemma StoppedOnce(s: State)
    requires AllWorkersStopped(s)
    ensures forall w :: multiset(s.calls)[StopCall(w)] == if w in s.workers then 1 else 0
  {
    forall w ensures multiset(s.calls)[StopCall(w)] == if w in s.workers then 1 else 0 {
      assert T.Times(s.calls, StopCall(w)) == One(w in s.workers);
    }
  }

  lemma OrderFromInv(s: State)
    requires Inv(s)
    ensures var k := s.mgr.sys.core;
      && |k.log| == |k.marks|
      && T.Times(k.log, Event.Shutdown) == One(Accepted(s.main))
      && Event.Shutdown !in k.dropped && Event.Shutdown !in Discarded(k.log, k.marks)
      && s.shutdownsHandled <= 1
      && (AfterWait(s.main) ==> s.shutdownsHandled == 1 && AllWorkersStopped(s))
      && (Exit in k.log ==> s.shutdownsHandled == 1 && AllWorkersStopped(s))
  {
    var k := s.mgr.sys.core;
    assert C.Fifo(s.mgr.sys);
    hide E.Inv, C.Stream, CallersInv, NoExitYet, PlaceInv;
    KeptAndDiscarded(k.log, k.marks);
    assert T.Times(Discarded(k.log, k.marks), Event.Shutdown) == 0;
  }

  lemma {:induction false} NoSignalYet(acts: seq<Act>)
    requires Valid(Init(), acts) && forall i :: 0 <= i < |acts| ==> !acts[i].Signal?
    ensures var s := Run(Init(), acts); s.initiate == 0 && (s.main.Attaching? || s.main.WaitInitiate?)
  {
    if |acts| == 0 {
    } else {
      var n := |acts| - 1;
      NoSignalYet(acts[..n]);
      NoSignalStep(Run(Init(), acts[..n]), acts[n]);
    }
  }

  lemma NoSignalStep(s: State, a: Act)
    requires Enabled(s, a) && !a.Signal? && s.initiate == 0 && (s.main.Attaching? || s.main.WaitInitiate?)
    ensures var t := Next(s, a); t.initiate == 0 && (t.main.Attaching? || t.main.WaitInitiate?)
  {
    hide E.Next, E.Enabled;
  }

  /** No shutdown of its own accord: in a run without an exit signal no Shutdown is ever accepted, no worker is ever
    stopped and the manager is never told to. */
  lemma NoShutdownWithoutSignal(acts: seq<Act>)
    requires Valid(Init(), acts) && forall i :: 0 <= i < |acts| ==> !acts[i].Signal?
    ensures var s := Run(Init(), acts);
      && Event.Shutdown !in s.mgr.sys.core.log && Exit !in s.mgr.sys.core.log && !s.terminated
      && forall w :: StopCall(w) !in s.calls
  {
    NoSignalYet(acts);
    InitHasInv();
    RunKeepsInv(Init(), acts);
    NothingYet(Run(Init(), acts));
  }

  lemma NothingYet(s: State)
    requires Inv(s) && (s.main.Attaching? || s.main.WaitInitiate?)
    ensures Event.Shutdown !in s.mgr.sys.core.log && Exit !in s.mgr.sys.core.log && !s.terminated
    ensures forall w :: StopCall(w) !in s.calls
  {
    hide E.Inv, CallersInv, NoExitYet, PlaceInv, C.Stream;
    assert T.Times(s.mgr.sys.core.log, Event.Shutdown) == 0;
    forall w ensures StopCall(w) !in s.calls {
      assert T.Times(s.calls, StopCall(w)) == 0;
    }
  }

  /** No work after teardown: once the teardown has begun, no run sends another WorkerTest to any worker, even with timer
    expiries still queued behind the Shutdown. */
  lemma {:induction false} NoWorkAfterTeardown(s: State, acts: seq<Act>)
    requires Inv(s) && s.terminated && Valid(s, acts)
    ensures var t := Run(s, acts);
      Inv(t) && t.terminated && s.calls <= t.calls && forall i :: |s.calls| <= i < |t.calls| ==> t.calls[i].StopCall?
  {
    hide Next, Inv;
    if |acts| == 0 {
    } else {
      var n := |acts| - 1;
      var t := Run(s, acts[..n]);
      NoWorkAfterTeardown(s, acts[..n]);
      StepKeepsInv(t, acts[n]);
      HandlerAfter(t, acts[n]);
      FlagsAfter(t, acts[n]);
      NotSending(t);
    }
  }

  lemma NotSending(s: State)
    requires Inv(s) && s.terminated
    ensures !s.handler.SendingTests?
  {
  }
}
