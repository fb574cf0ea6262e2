/** One `Thread` of src/threading/thread.cpp as a state machine: its channel, its loop, its timers and every thread
  that calls `TransmitEvent` or `Stop` on it, interleaved step by step. */
module EventLoop {
  import opened Events
  import opened Channel
  import C = ChannelRuns

  const MAX_EVENTS_PER_LOOP: nat := 10

  /** The timer thread among the callers. It sends expiries without looking at `m_stopping`. */
  const TIMER: nat := 0

  /** Where `Enter` stands: up to and including `Stopping()`, in the final loop over the timers, or past it. */
  datatype Phase = Running | Closing(todo: set<TimerId>) | Ended

  /** The last five fields are history: the ids ever started, and in order the ids whose stop was requested, whose
    callback ran, whose expiry was discarded as unknown, whose expiry the timer thread sent. */
  datatype Loop = Loop(
    sys: C.Sys<Event>,
    stopping: bool,
    stopRequested: bool,
    stopChecked: set<nat>,  // callers of `Stop` that found `m_stopping` false and have not stored true yet
    timers: set<TimerId>,
    phase: Phase,
    started: set<TimerId>,
    stopRequests: seq<TimerId>,
    callbacks: seq<TimerId>,
    unknown: seq<TimerId>,
    expiries: seq<TimerId>)

  datatype Act =
    | Transmit(c: nat, e: Event)  // past the check of `m_stopping`, which is relaxed and may read a stale false
    | Refused(c: nat)  // `TransmitEvent` or `Stop` found `m_stopping` set
    | Expire(id: TimerId)
    | StopCheck(c: nat)
    | StopStore(c: nat)
    | Section(c: nat)
    | Release(c: nat, to: nat)
    | Acquire
    | Timeout
    | Take
    | Dispatch(to: nat)
    | EndPass(to: nat)
    | Leave  // the loop sees the stop request, `Execute` returns and the receiver is destroyed
    | StartTimer(id: TimerId)
    | StopTimer(id: TimerId)
    | BeginClose
    | CloseTimer(id: TimerId)
    | End

  function Init(): Loop {
    Loop(C.Init(), false, false, {}, {}, Running, {}, [], [], [], [])
  }

  /** Steps that touch the channel, and the channel step each of them is. */
  predicate OnChannel(a: Act) {
    !(a.Refused? || a.StopCheck? || a.StartTimer? || a.StopTimer? || a.BeginClose? || a.CloseTimer? || a.End?)
  }

  function ChannelAct(a: Act): C.Act<Event>
    requires OnChannel(a)
  {
    match a
    case Transmit(c, e) => C.BeginSend(c, e)
    case Expire(id) => C.BeginSend(TIMER, Expired(id))
    case StopStore(c) => C.BeginFlush(c, Exit)
    case Section(c) => C.Section(c)
    case Release(c, to) => C.Release(c, to)
    case Acquire => C.Acquire
    case Timeout => C.Timeout
    case Take => C.Take(MAX_EVENTS_PER_LOOP)
    case Dispatch(_) => C.Deliver
    case EndPass(to) => C.EndPass(to)
    case Leave => C.Disconnect
  }

  predicate Enabled(s: Loop, a: Act) {
    && (OnChannel(a) ==> C.Enabled(s.sys, ChannelAct(a)))
    && match a
       case Transmit(c, e) => c != TIMER && c !in s.stopChecked && !e.Exit? && !e.Expired?
       case Refused(_) => s.stopping
       case StopCheck(c) => c != TIMER && !s.stopping && c !in s.stopChecked && c !in s.sys.senders
       case StopStore(c) => c in s.stopChecked
       case Acquire => !s.stopRequested
       case Timeout => !s.stopRequested
       case Dispatch(to) => C.Enabled(s.sys, C.Extra(to))
       case Leave => s.stopRequested
       case StartTimer(id) => s.phase.Running? && id !in s.started
       case StopTimer(_) => s.phase.Running?
       case BeginClose => s.phase.Running? && s.sys.rx.Dropped?
       case CloseTimer(id) => s.phase.Closing? && id in s.phase.todo
       case End => s.phase.Closing? && s.phase.todo == {}
       case _ => true
  }

  /** The first Exit dispatched requests the stop, and the stop callback releases a permit. */
  predicate ExitsNow(s: Loop, a: Act)
    requires Enabled(s, a)
  {
    a.Dispatch? && s.sys.rx.rest[0].Exit? && !s.stopRequested
  }

  function SysNext(s: Loop, a: Act): C.Sys<Event>
    requires Enabled(s, a)
  {
    if !OnChannel(a) then s.sys else
    var t := C.Next(s.sys, ChannelAct(a));
    if ExitsNow(s, a) then C.Next(t, C.Extra(a.to)) else t
  }

  /** One round of the dispatch loop. */
  function Handle(s: Loop, e: Event): Loop {
    match e
    case Exit => s.(stopRequested := true)
    case Expired(id) =>
      if id in s.timers then s.(callbacks := s.callbacks + [id])
      else s.(unknown := s.unknown + [id])
    case _ => s
  }

  /** The effect of a step on everything but the channel. */
  function LocalNext(s: Loop, a: Act): Loop
    requires Enabled(s, a)
  {
    match a
    case Expire(id) => s.(expiries := s.expiries + [id])
    case StopCheck(c) => s.(stopChecked := s.stopChecked + {c})
    case StopStore(c) => s.(stopChecked := s.stopChecked - {c}, stopping := true)
    case Dispatch(_) => Handle(s, s.sys.rx.rest[0])
    case StartTimer(id) => s.(timers := s.timers + {id}, started := s.started + {id})
    case StopTimer(id) =>
      if id in s.timers then s.(timers := s.timers - {id}, stopRequests := s.stopRequests + [id]) else s
    case BeginClose => s.(phase := Closing(s.timers))
    case CloseTimer(id) =>
      s.(phase := Closing(s.phase.todo - {id}), stopRequests := s.stopRequests + [id])
    case End => s.(phase := Ended)
    case _ => s
  }

  function Next(s: Loop, a: Act): Loop
    requires Enabled(s, a)
  {
    LocalNext(s, a).(sys := SysNext(s, a))
  }

  predicate Valid(s: Loop, acts: seq<Act>)
    decreases |acts|, 0
  {
    |acts| == 0 ||
    var n := |acts| - 1;
    Valid(s, acts[..n]) && Enabled(Run(s, acts[..n]), acts[n])
  }

  function Run(s: Loop, acts: seq<Act>): Loop
    requires Valid(s, acts)
    decreases |acts|, 1
  {
    if |acts| == 0 then s else
    var n := |acts| - 1;
    Next(Run(s, acts[..n]), acts[n])
  }

  lemma RunSnoc(s: Loop, acts: seq<Act>, a: Act)
    requires Valid(s, acts) && Enabled(Run(s, acts), a)
    ensures Valid(s, acts + [a]) && Run(s, acts + [a]) == Next(Run(s, acts), a)
  {
  }

  // ---- the waits for a permit ----

  /** One `try_acquire_for`: how many permits there were, and whether it got one. */
  datatype Wait = Wait(permits: nat, acquired: bool)

  function WaitOf(s: Loop, a: Act): seq<Wait> {
    if a.Acquire? then [Wait(s.sys.core.permits, true)]
    else if a.Timeout? then [Wait(s.sys.core.permits, false)] else []
  }

  /** The waits of a run, in order. */
  function Waits(s: Loop, acts: seq<Act>): seq<Wait>
    requires Valid(s, acts)
  {
    if |acts| == 0 then [] else
    var n := |acts| - 1;
    Waits(s, acts[..n]) + WaitOf(Run(s, acts[..n]), acts[n])
  }

  lemma WaitsSnoc(s: Loop, acts: seq<Act>, a: Act)
    requires Valid(s, acts) && Enabled(Run(s, acts), a) && Valid(s, acts + [a])
    ensures Waits(s, acts + [a]) == Waits(s, acts) + WaitOf(Run(s, acts), a)
  {
    assert (acts + [a])[..|acts|] == acts;
  }

  // ---- the thread runs on the channel ----

  function Lower(s: Loop, a: Act): seq<C.Act<Event>>
    requires Enabled(s, a)
  {
    if !OnChannel(a) then [] else [ChannelAct(a)] + if ExitsNow(s, a) then [C.Extra(a.to)] else []
  }

  function LowerRun(s: Loop, acts: seq<Act>): seq<C.Act<Event>>
    requires Valid(s, acts)
  {
    if |acts| == 0 then [] else
    var n := |acts| - 1;
    LowerRun(s, acts[..n]) + Lower(Run(s, acts[..n]), acts[n])
  }

  lemma StepLowers(s: Loop, a: Act)
    requires Enabled(s, a)
    ensures C.Valid(s.sys, Lower(s, a)) && C.Run(s.sys, Lower(s, a)) == Next(s, a).sys
  {
    if OnChannel(a) {
      C.RunOne(s.sys, ChannelAct(a));
      if ExitsNow(s, a) {
        var t := C.Next(s.sys, ChannelAct(a));
        C.RunOne(t, C.Extra(a.to));
        C.RunsCompose(s.sys, [ChannelAct(a)], [C.Extra(a.to)]);
      } else {
        assert Lower(s, a) == [ChannelAct(a)];
      }
    }
  }

  /** Every run of the thread is a run of its channel. So what is proved of the channel over all runs holds here. */
  lemma {:induction false} RunLowers(s: Loop, acts: seq<Act>)
    requires Valid(s, acts)
    ensures C.Valid(s.sys, LowerRun(s, acts)) && C.Run(s.sys, LowerRun(s, acts)) == Run(s, acts).sys
  {
    if |acts| == 0 {
    } else {
      var n := |acts| - 1;
      var t := Run(s, acts[..n]);
      RunLowers(s, acts[..n]);
      StepLowers(t, acts[n]);
      C.RunsCompose(s.sys, LowerRun(s, acts[..n]), Lower(t, acts[n]));
    }
  }

  // ---- what a step needs and what it does ----

  /** What a step of the loop, or a locked section, finds. */
  lemma StepNeeds(s: Loop, a: Act)
    requires Enabled(s, a)
    ensures a.Section? ==> a.c in s.sys.senders && !s.sys.senders[a.c].Releasing?
    ensures a.Acquire? ==> s.sys.rx.Idle? && !s.stopRequested
    ensures a.Take? ==> s.sys.rx.Holding?
    ensures a.Dispatch? ==> s.sys.rx.Passing? && |s.sys.rx.rest| > 0
    ensures a.EndPass? ==> s.sys.rx.Passing? && |s.sys.rx.rest| == 0
    ensures a.Leave? ==> s.sys.rx.Idle? && s.stopRequested
    ensures a.BeginClose? ==> s.sys.rx.Dropped?
    ensures a.CloseTimer? || a.End? ==> s.phase.Closing?
    ensures a.StopCheck? || a.Transmit? ==> a.c !in s.sys.senders && a.c !in s.stopChecked
  {
  }

  /** What a step does to the callers and flags. */
  lemma CallersAfter(s: Loop, a: Act)
    requires Enabled(s, a)
    ensures var k, t := s.sys, Next(s, a);
      && t.stopping == (s.stopping || a.StopStore?)
      && t.stopChecked == (if a.StopCheck? then s.stopChecked + {a.c} else if a.StopStore? then s.stopChecked - {a.c}
                           else s.stopChecked)
      && t.sys.senders == (match a
                           case Transmit(c, e) => k.senders[c := C.WantsSend(e)]
                           case Expire(id) => k.senders[TIMER := C.WantsSend(Expired(id))]
                           case StopStore(c) => k.senders[c := C.WantsFlush(Exit)]
                           case Section(c) =>
                             if k.core.disconnected then k.senders - {c} else k.senders[c := C.Releasing]
                           case Release(c, _) => k.senders - {c}
                           case _ => k.senders)
  {
  }

  /** What it does to the place the loop has reached. */
  lemma RxAfter(s: Loop, a: Act)
    requires Enabled(s, a)
    ensures var k, t := s.sys, Next(s, a).sys;
      && t.rx == (match a
                  case Acquire => C.Holding
                  case Take =>
                    var n := BatchSize(k.core, MAX_EVENTS_PER_LOOP);
                    if n == 0 then C.Idle else C.Passing(k.core.queue[..n], |k.core.queue| - n)
                  case Dispatch(_) => C.Passing(k.rx.rest[1..], k.rx.left)
                  case EndPass(_) => C.Idle
                  case Leave => C.Dropped
                  case _ => k.rx)
    ensures Next(s, a).phase == (match a
                                   case BeginClose => Closing(s.timers)
                                   case CloseTimer(id) => Closing(s.phase.todo - {id})
                                   case End => Ended
                                   case _ => s.phase)
    ensures Next(s, a).started == if a.StartTimer? then s.started + {a.id} else s.started
  {
  }

  /** What it does to the queue and its semaphore. */
  lemma QueueAfter(s: Loop, a: Act)
    requires Enabled(s, a)
    ensures var k, k' := s.sys.core, Next(s, a).sys.core;
      && (a.Section? ==>
            k'.queue == if k.disconnected then k.queue
                        else (if s.sys.senders[a.c].WantsSend? then k.queue else []) + [s.sys.senders[a.c].value])
      && (a.Take? ==> k'.queue == k.queue[BatchSize(k, MAX_EVENTS_PER_LOOP)..])
      && (!a.Section? && !a.Take? ==> k'.queue == k.queue)
      && (a.Acquire? ==> k'.permits == k.permits - 1)
      && (a.Release? ==> k'.permits > 0)
      && (!a.Acquire? && !a.Release? && !a.EndPass? && !a.Dispatch? ==> k'.permits == k.permits)
  {
  }

  /** What it does to the deliveries and to what is known of them. */
  lemma DeliveryAfter(s: Loop, a: Act)
    requires Enabled(s, a)
    ensures var k, t := s.sys, Next(s, a);
      && t.sys.delivered == (if a.Dispatch? then k.delivered + [k.rx.rest[0]] else k.delivered)
      && t.stopRequested == (s.stopRequested || (a.Dispatch? && k.rx.rest[0].Exit?))
      && t.sys.core.log ==
           (if a.Section? && !k.core.disconnected then k.core.log + [k.senders[a.c].value] else k.core.log)
      && t.sys.core.disconnected == (k.core.disconnected || a.Leave?)
  {
  }

  // ---- Exit sits only at the head ----

  predicate ExitOnlyFirst(q: seq<Event>) {
    forall i :: 0 < i < |q| ==> !q[i].Exit?
  }

  predicate ExitFirst(q: seq<Event>) {
    |q| > 0 && q[0].Exit?
  }

  /** Who may be sending what: only the timer thread sends expiries, and only `Stop` sends Exit. */
  predicate SendersInv(s: Loop) {
    && TIMER !in s.stopChecked
    && forall c :: c in s.sys.senders ==>
      match s.sys.senders[c]
      case WantsSend(v) => !v.Exit? && (v.Expired? <==> c == TIMER)
      case WantsFlush(v) => v.Exit? && s.stopping && c != TIMER
      case Releasing => true
  }

  predicate ExitInv(s: Loop) {
    var queue, batch := s.sys.core.queue, C.InFlight(s.sys);
    && ExitOnlyFirst(queue) && ExitOnlyFirst(batch) && |batch| <= MAX_EVENTS_PER_LOOP
    && (Exit in s.sys.core.log ==> s.stopping && (s.stopRequested || ExitFirst(batch) || ExitFirst(queue)))
    && (s.stopRequested <==> Exit in s.sys.delivered)
    && multiset(s.sys.delivered)[Exit] <= 1
    && (s.stopRequested ==> !ExitFirst(batch) && !s.sys.rx.Holding?)
    && (s.sys.rx.Dropped? ==> s.stopRequested)
  }

  ghost predicate Inv(s: Loop) {
    C.Inv(s.sys) && SendersInv(s) && ExitInv(s)
  }

  lemma StepKeepsChannelInv(s: Loop, a: Act)
    requires C.Inv(s.sys) && Enabled(s, a)
    ensures C.Inv(Next(s, a).sys)
  {
    if OnChannel(a) {
      C.StepKeepsInv(s.sys, ChannelAct(a));
      if ExitsNow(s, a) {
        C.StepKeepsInv(C.Next(s.sys, ChannelAct(a)), C.Extra(a.to));
      }
    }
  }

  lemma StepKeepsSendersInv(s: Loop, a: Act)
    requires SendersInv(s) && Enabled(s, a)
    ensures SendersInv(Next(s, a))
  {
    var old', new' := s.sys.senders, Next(s, a).sys.senders;
    forall c | c in new' && (c !in old' || new'[c] != old'[c])
      ensures new'[c].Releasing? || a == Transmit(c, new'[c].value) ||
        (c == TIMER && a.Expire? && new'[c].value == Expired(a.id)) || (a == StopStore(c) && new'[c].value == Exit)
    {
    }
  }

  lemma SectionKeepsExitInv(s: Loop, a: Act)
    requires SendersInv(s) && ExitInv(s) && Enabled(s, a) && a.Section?
    ensures ExitInv(Next(s, a))
  {
    StepNeeds(s, a);
    CallersAfter(s, a);
    RxAfter(s, a);
    QueueAfter(s, a);
    DeliveryAfter(s, a);
    hide Enabled, Next;
  }

  lemma TakeKeepsExitInv(s: Loop)
    requires ExitInv(s) && Enabled(s, Take)
    ensures ExitInv(Next(s, Take))
  {
    StepNeeds(s, Take);
    CallersAfter(s, Take);
    RxAfter(s, Take);
    QueueAfter(s, Take);
    DeliveryAfter(s, Take);
    hide Enabled, Next;
  }

  lemma ExitsAfter(q: seq<Event>, e: Event)
    ensures multiset(q + [e])[Exit] == multiset(q)[Exit] + if e.Exit? then 1 else 0
    ensures Exit in q + [e] <==> Exit in q || e.Exit?
    ensures Exit !in q ==> multiset(q)[Exit] == 0
  {
  }

  lemma DispatchKeepsExitInv(s: Loop, a: Act)
    requires ExitInv(s) && Enabled(s, a) && a.Dispatch?
    ensures ExitInv(Next(s, a))
  {
    StepNeeds(s, a);
    CallersAfter(s, a);
    RxAfter(s, a);
    QueueAfter(s, a);
    DeliveryAfter(s, a);
    ExitsAfter(s.sys.delivered, s.sys.rx.rest[0]);
    hide Enabled, Next;
  }

  /** The steps that touch neither queue nor deliveries. */
  lemma OtherKeepsExitInv(s: Loop, a: Act)
    requires ExitInv(s) && Enabled(s, a) && !a.Section? && !a.Take? && !a.Dispatch?
    ensures ExitInv(Next(s, a))
  {
    StepNeeds(s, a);
    CallersAfter(s, a);
    RxAfter(s, a);
    QueueAfter(s, a);
    DeliveryAfter(s, a);
    hide Enabled, Next;
  }

  lemma StepKeepsExitInv(s: Loop, a: Act)
    requires SendersInv(s) && ExitInv(s) && Enabled(s, a)
    ensures ExitInv(Next(s, a))
  {
    hide Enabled, Next, SendersInv, ExitInv;
    match a {
      case Section(_) => SectionKeepsExitInv(s, a);
      case Take => TakeKeepsExitInv(s);
      case Dispatch(_) => DispatchKeepsExitInv(s, a);
      case _ => OtherKeepsExitInv(s, a);
    }
  }

  lemma StepKeepsInv(s: Loop, a: Act)
    requires Inv(s) && Enabled(s, a)
    ensures Inv(Next(s, a))
  {
    hide Enabled, Next, C.Inv, SendersInv, ExitInv;
    StepKeepsChannelInv(s, a);
    StepKeepsSendersInv(s, a);
    StepKeepsExitInv(s, a);
  }

  lemma {:induction false} RunKeepsInv(s: Loop, acts: seq<Act>)
    requires Inv(s) && Valid(s, acts)
    ensures Inv(Run(s, acts))
  {
    if |acts| == 0 {
    } else {
      var n := |acts| - 1;
      RunKeepsInv(s, acts[..n]);
      StepKeepsInv(Run(s, acts[..n]), acts[n]);
    }
  }

  /** In every reachable state, whatever stops race: the queue and the batch hold an Exit only as their first event,
    and at most one Exit has been handled. */
  lemma ExitOnlyAtTheHead(acts: seq<Act>)
    requires Valid(Init(), acts)
    ensures var s := Run(Init(), acts).sys;
      && (forall i :: 0 < i < |s.core.queue| ==> !s.core.queue[i].Exit?)
      && (forall i :: 0 < i < |C.InFlight(s)| ==> !C.InFlight(s)[i].Exit?)
      && multiset(s.delivered)[Exit] <= 1
      && (s.rx.Dropped? ==> multiset(s.delivered)[Exit] == 1)
  {
    assert Inv(Init());
    RunKeepsInv(Init(), acts);
  }

  // ---- bounded work after Stop ----

  function NonExits(q: seq<Event>): nat {
    if |q| == 0 then 0 else (if q[0].Exit? then 0 else 1) + NonExits(q[1..])
  }

  lemma {:induction false} NonExitsBound(q: seq<Event>)
    ensures NonExits(q) <= |q| && (ExitFirst(q) ==> NonExits(q) < |q|)
  {
    if |q| == 0 {
    } else {
      NonExitsBound(q[1..]);
    }
  }

  /** `a` dispatches an event other than Exit. */
  predicate Works(s: Loop, a: Act)
    requires Enabled(s, a)
  {
    a.Dispatch? && !s.sys.rx.rest[0].Exit?
  }

  /** Events other than Exit that a run dispatches. */
  function Work(s: Loop, acts: seq<Act>): nat
    requires Valid(s, acts)
  {
    if |acts| == 0 then 0 else
    var n := |acts| - 1;
    Work(s, acts[..n]) + if Works(Run(s, acts[..n]), acts[n]) then 1 else 0
  }

  /** Batches that a run takes from the queue. */
  function Passes(acts: seq<Act>): nat {
    if |acts| == 0 then 0 else
    var n := |acts| - 1;
    Passes(acts[..n]) + if acts[n].Take? then 1 else 0
  }

  /** The Exit is still in the queue: one more batch is to come. */
  predicate ExitQueued(s: Loop) {
    !s.stopRequested && !ExitFirst(C.InFlight(s.sys))
  }

  /** What is left to dispatch: the batch in flight and, if the Exit is still queued, the 9 events behind it. */
  function Allowance(s: Loop): nat {
    NonExits(C.InFlight(s.sys)) + if ExitQueued(s) then MAX_EVENTS_PER_LOOP - 1 else 0
  }

  predicate ExitAccepted(s: Loop) {
    Exit in s.sys.core.log
  }

  function PassesLeft(s: Loop): nat {
    if ExitQueued(s) then 1 else 0
  }

  lemma TakeSpendsAllowance(s: Loop)
    requires Inv(s) && Enabled(s, Take) && ExitAccepted(s)
    ensures ExitQueued(s) && !ExitQueued(Next(s, Take)) && Allowance(Next(s, Take)) <= Allowance(s)
  {
    var t := Next(s, Take);
    assert ExitFirst(C.InFlight(t.sys)) by { TakeKeepsExitInv(s); }
    NonExitsBound(C.InFlight(t.sys));
  }

  lemma StepSpendsAllowance(s: Loop, a: Act)
    requires Inv(s) && Enabled(s, a) && ExitAccepted(s)
    ensures ExitAccepted(Next(s, a))
    ensures Allowance(Next(s, a)) + (if Works(s, a) then 1 else 0) <= Allowance(s)
    ensures PassesLeft(Next(s, a)) + (if a.Take? then 1 else 0) <= PassesLeft(s)
  {
    assert s.sys.core.log <= Next(s, a).sys.core.log;
    if a.Take? {
      TakeSpendsAllowance(s);
    } else if !a.Dispatch? {
      assert C.InFlight(Next(s, a).sys) == C.InFlight(s.sys);
    }
  }

  lemma {:induction false} RunSpendsAllowance(s: Loop, acts: seq<Act>)
    requires Inv(s) && ExitAccepted(s) && Valid(s, acts)
    ensures Inv(Run(s, acts)) && ExitAccepted(Run(s, acts))
    ensures Work(s, acts) + Allowance(Run(s, acts)) <= Allowance(s)
    ensures Passes(acts) + PassesLeft(Run(s, acts)) <= PassesLeft(s)
  {
    if |acts| == 0 {
    } else {
      var n := |acts| - 1;
      var t := Run(s, acts[..n]);
      RunSpendsAllowance(s, acts[..n]);
      StepSpendsAllowance(t, acts[n]);
      StepKeepsInv(t, acts[n]);
    }
  }

  /** Once an Exit is in the queue the thread dispatches at most 19 more events that are not Exit (10 of the batch in
    flight and 9 behind the Exit in its own batch), and takes at most one more batch, in any continuation: whatever is
    transmitted past a stale check, whoever else stops it, however many timers expire. */
  lemma BoundedWorkAfterStop(s: Loop, acts: seq<Act>)
    requires Inv(s) && ExitAccepted(s) && Valid(s, acts)
    ensures Work(s, acts) <= 19 && Passes(acts) <= 1
    ensures !ExitQueued(s) ==> Work(s, acts) <= |C.InFlight(s.sys)| && Passes(acts) == 0
  {
    NonExitsBound(C.InFlight(s.sys));
    RunSpendsAllowance(s, acts);
  }

  /** The same, counted from the step at which a `Stop` call puts its Exit into the queue. */
  lemma StopBoundsTheWork(before: seq<Act>, c: nat, after: seq<Act>)
    requires Valid(Init(), before)
    requires var s := Run(Init(), before);
      && Enabled(s, Section(c)) && s.sys.senders[c].WantsFlush? && !s.sys.core.disconnected
      && Valid(Next(s, Section(c)), after)
    ensures var t := Next(Run(Init(), before), Section(c));
      && t.sys.core.queue == [Exit]
      && Work(t, after) <= 19 && Passes(after) <= 1
  {
    var s := Run(Init(), before);
    assert Inv(Init());
    RunKeepsInv(Init(), before);
    StepKeepsInv(s, Section(c));
    var t := Next(s, Section(c));
    assert t.sys.core.log == s.sys.core.log + [Exit];
    BoundedWorkAfterStop(t, after);
  }

  // ---- how long an event waits ----

  /** No `Stop` call flushes the queue during the run. */
  predicate Unflushed(s: Loop, acts: seq<Act>)
    requires Valid(s, acts)
  {
    |acts| == 0 ||
    var n := |acts| - 1;
    var t := Run(s, acts[..n]).sys;
    Unflushed(s, acts[..n]) &&
    !(acts[n].Section? && t.senders[acts[n].c].WantsFlush? && !t.core.disconnected)
  }

  lemma StepPasses(s: Loop, a: Act)
    requires Enabled(s, a)
    ensures C.Takes(Lower(s, a)) == (if a.Take? then 1 else 0) && C.TakesAtMost(Lower(s, a), MAX_EVENTS_PER_LOOP)
    ensures C.Valid(s.sys, Lower(s, a))
    ensures !(a.Section? && s.sys.senders[a.c].WantsFlush? && !s.sys.core.disconnected) ==>
      C.Flushless(s.sys, Lower(s, a))
  {
    StepLowers(s, a);
    if OnChannel(a) {
      C.TakesCompose([ChannelAct(a)], if ExitsNow(s, a) then [C.Extra(a.to)] else []);
    }
  }

  /** The thread's passes are its channel's, each with the limit of 10. */
  lemma {:induction false} RunPasses(s: Loop, acts: seq<Act>)
    requires Valid(s, acts)
    ensures C.Takes(LowerRun(s, acts)) == Passes(acts) && C.TakesAtMost(LowerRun(s, acts), MAX_EVENTS_PER_LOOP)
    ensures C.Valid(s.sys, LowerRun(s, acts))
    ensures Unflushed(s, acts) ==> C.Flushless(s.sys, LowerRun(s, acts))
  {
    hide Enabled, Next, Lower, C.Takes, C.Flushless, C.Valid, C.Run;
    RunLowers(s, acts);
    if |acts| == 0 {
      NothingLowers(s.sys);
    } else {
      var n := |acts| - 1;
      var t := Run(s, acts[..n]);
      RunPasses(s, acts[..n]);
      RunLowers(s, acts[..n]);
      StepPasses(t, acts[n]);
      C.TakesCompose(LowerRun(s, acts[..n]), Lower(t, acts[n]));
      if Unflushed(s, acts) {
        C.FlushlessCompose(s.sys, LowerRun(s, acts[..n]), Lower(t, acts[n]));
      }
    }
  }

  lemma NothingLowers(k: C.Sys<Event>)
    ensures C.Takes<Event>([]) == 0 && C.Valid(k, []) && C.Flushless(k, [])
  {
  }

  /** Whatever is transmitted meanwhile, the event at queue index `k` is claimed by exactly the (k / 10 + 1)-th batch, and
    delivered when that batch's pass is over, unless a `Stop` flushes it. */
  lemma DeliveredOnPass(s: Loop, acts: seq<Act>, k: nat)
    requires Valid(s, acts) && Unflushed(s, acts) && k < |s.sys.core.queue|
    ensures var t, p := Run(s, acts).sys, C.Claimed(s.sys) + k;
      && (p < C.Claimed(t) <==> Passes(acts) >= k / 10 + 1)
      && (Passes(acts) >= k / 10 + 1 && !t.rx.Passing? ==>
            p < |t.delivered| && t.delivered[p] == s.sys.core.queue[k])
  {
    hide Enabled, Next, LowerRun, Passes, Unflushed;
    hide C.Takes, C.Flushless, C.Valid, C.Run;
    RunLowers(s, acts);
    RunPasses(s, acts);
    C.StarvationBound(s.sys, LowerRun(s, acts), k);
    C.ClaimedOnPass(s.sys, LowerRun(s, acts), MAX_EVENTS_PER_LOOP, k);
  }
}
