/** How much work can follow a `Stop`, exactly: the bound of `EventLoop` is attained from every reachable state in which an
  Exit has been accepted, and 19 more events do happen. */
module StopWork {
  import opened Events
  import opened Channel
  import C = ChannelRuns
  import opened EventLoop

  // ---- runs end to end ----

  lemma {:induction false} RunsCompose(s: Loop, first: seq<Act>, second: seq<Act>)
    requires Valid(s, first) && Valid(Run(s, first), second)
    ensures Valid(s, first + second) && Run(s, first + second) == Run(Run(s, first), second)
    ensures Work(s, first + second) == Work(s, first) + Work(Run(s, first), second)
  {
    hide Enabled, Next, Works;
    if |second| == 0 {
      assert first + second == first;
    } else {
      var n := |second| - 1;
      RunsCompose(s, first, second[..n]);
      assert (first + second)[..|first + second| - 1] == first + second[..n];
      assert (first + second)[|first + second| - 1] == second[n];
    }
  }

  lemma RunOne(s: Loop, a: Act)
    requires Enabled(s, a)
    ensures Valid(s, [a]) && Run(s, [a]) == Next(s, a)
    ensures Work(s, [a]) == if Works(s, a) then 1 else 0
  {
    assert [] + [a] == [a];
    RunSnoc(s, [], a);
  }

  /** Steps of the loop itself and of the timer thread, which never looks at `m_stopping`; whatever expires is timer
    `id`. */
  predicate OfLoopOrTimer(a: Act, id: TimerId) {
    || a.Acquire? || a.Take? || a.Dispatch? || a.EndPass? || a == Expire(id)
    || ((a.Section? || a.Release?) && a.c == TIMER)
  }

  /** Nobody transmits: no stale read of `m_stopping` plays a part. */
  predicate OnlyExpiries(acts: seq<Act>, id: TimerId) {
    forall i :: 0 <= i < |acts| ==> OfLoopOrTimer(acts[i], id)
  }

  /** `acts` leads from `s` to `t` and dispatches `work` events other than Exit. */
  ghost predicate Leads(s: Loop, acts: seq<Act>, t: Loop, work: nat) {
    Valid(s, acts) && Run(s, acts) == t && Work(s, acts) == work
  }

  ghost predicate Reaches(s: Loop, t: Loop, work: nat, id: TimerId) {
    exists acts :: Leads(s, acts, t, work) && OnlyExpiries(acts, id)
  }

  lemma ReachesByStep(s: Loop, a: Act, id: TimerId)
    requires Enabled(s, a) && OfLoopOrTimer(a, id)
    ensures Reaches(s, Next(s, a), if Works(s, a) then 1 else 0, id)
  {
    hide Enabled, Next, Works, Valid, Run, Work;
    RunOne(s, a);
    assert Leads(s, [a], Next(s, a), if Works(s, a) then 1 else 0) && OnlyExpiries([a], id);
  }

  lemma ReachesItself(s: Loop, id: TimerId)
    ensures Reaches(s, s, 0, id)
  {
    assert Leads(s, [], s, 0) && OnlyExpiries([], id);
  }

  lemma ReachesOn(s: Loop, t: Loop, u: Loop, m: nat, n: nat, id: TimerId)
    requires Reaches(s, t, m, id) && Reaches(t, u, n, id)
    ensures Reaches(s, u, m + n, id)
  {
    hide Valid, Run, Work, OfLoopOrTimer;
    var first :| Leads(s, first, t, m) && OnlyExpiries(first, id);
    var second :| Leads(t, second, u, n) && OnlyExpiries(second, id);
    RunsCompose(s, first, second);
    assert Leads(s, first + second, u, m + n) && OnlyExpiries(first + second, id);
  }

  // ---- dispatching what is in flight ----

  lemma DispatchOne(s: Loop)
    requires s.sys.rx.Passing? && |s.sys.rx.rest| > 0
    ensures Enabled(s, Dispatch(1)) && Works(s, Dispatch(1)) == !s.sys.rx.rest[0].Exit?
    ensures var t, e := Next(s, Dispatch(1)), s.sys.rx.rest[0];
      && t.sys.rx == C.Passing(s.sys.rx.rest[1..], s.sys.rx.left)
      && t.sys.core.queue == s.sys.core.queue && t.sys.core.disconnected == s.sys.core.disconnected
      && t.sys.senders == s.sys.senders && t.stopChecked == s.stopChecked && t.stopping == s.stopping
      && t.stopRequested == (s.stopRequested || e.Exit?)
  {
  }

  /** What dispatching leaves alone. */
  ghost predicate SameOutside(s: Loop, t: Loop) {
    && t.sys.core.queue == s.sys.core.queue && t.sys.core.disconnected == s.sys.core.disconnected
    && t.sys.senders == s.sys.senders && t.stopChecked == s.stopChecked && t.stopping == s.stopping
  }

  lemma {:induction false} DispatchAll(s: Loop, id: TimerId) returns (t: Loop)
    requires s.sys.rx.Passing?
    ensures Reaches(s, t, NonExits(s.sys.rx.rest), id)
    ensures t.sys.rx == C.Passing([], s.sys.rx.left) && SameOutside(s, t)
    ensures t.stopRequested == (s.stopRequested || Exit in s.sys.rx.rest)
    decreases |s.sys.rx.rest|
  {
    hide Enabled, Next, Works, Reaches;
    var rest := s.sys.rx.rest;
    if |rest| == 0 {
      t := s;
      ReachesItself(s, id);
    } else {
      DispatchOne(s);
      var u := Next(s, Dispatch(1));
      ReachesByStep(s, Dispatch(1), id);
      t := DispatchAll(u, id);
      ReachesOn(s, u, t, if rest[0].Exit? then 0 else 1, NonExits(rest[1..]), id);
      assert rest == [rest[0]] + rest[1..];
    }
  }

  // ---- filling the queue ----

  /** What the timer thread's sending leaves alone. */
  ghost predicate SameInside(s: Loop, t: Loop) {
    && t.sys.rx == s.sys.rx && t.sys.core.disconnected == s.sys.core.disconnected && t.stopping == s.stopping
    && t.stopRequested == s.stopRequested && t.stopChecked == s.stopChecked && t.timers == s.timers
    && t.sys.senders - {TIMER} == s.sys.senders - {TIMER}
  }

  lemma SectionOfTimer(s: Loop)
    requires TIMER in s.sys.senders && s.sys.senders[TIMER].WantsSend? && !s.sys.core.disconnected
    ensures Enabled(s, Section(TIMER))
    ensures var t := Next(s, Section(TIMER));
      && SameInside(s, t) && TIMER in t.sys.senders && t.sys.senders[TIMER].Releasing?
      && t.sys.core.queue == s.sys.core.queue + [s.sys.senders[TIMER].value]
  {
  }

  lemma ReleaseOfTimer(s: Loop)
    requires TIMER in s.sys.senders && s.sys.senders[TIMER].Releasing?
    ensures Enabled(s, Release(TIMER, 1))
    ensures var t := Next(s, Release(TIMER, 1));
      SameInside(s, t) && TIMER !in t.sys.senders && t.sys.core.permits > 0 && t.sys.core.queue == s.sys.core.queue
  {
  }

  lemma ExpireNow(s: Loop, id: TimerId)
    requires TIMER !in s.sys.senders
    ensures Enabled(s, Expire(id))
    ensures var t := Next(s, Expire(id));
      && SameInside(s, t) && TIMER in t.sys.senders && t.sys.senders[TIMER] == C.WantsSend(Expired(id))
      && t.sys.core.queue == s.sys.core.queue
  {
  }

  /** The queue of `t` is that of `s` and then more events, none of them Exit. */
  ghost predicate Longer(s: Loop, t: Loop, n: nat) {
    && s.sys.core.queue <= t.sys.core.queue && |t.sys.core.queue| >= |s.sys.core.queue| + n
    && forall i :: |s.sys.core.queue| <= i < |t.sys.core.queue| ==> !t.sys.core.queue[i].Exit?
  }

  /** The timer thread is not in the middle of a flush, and what it is sending is not Exit. */
  predicate TimerSends(s: Loop) {
    TIMER in s.sys.senders ==> !s.sys.senders[TIMER].WantsFlush? &&
                               (s.sys.senders[TIMER].WantsSend? ==> !s.sys.senders[TIMER].value.Exit?)
  }

  /** The timer thread finishes the call it is in. */
  lemma FinishSend(s: Loop, id: TimerId) returns (t: Loop)
    requires TimerSends(s) && !s.sys.core.disconnected
    ensures Reaches(s, t, 0, id) && SameInside(s, t) && TIMER !in t.sys.senders && Longer(s, t, 0)
    ensures TIMER in s.sys.senders ==> t.sys.core.permits > 0
    ensures TIMER in s.sys.senders && s.sys.senders[TIMER].WantsSend? ==> Longer(s, t, 1)
  {
    hide Enabled, Next, Reaches;
    ReachesItself(s, id);
    var u := s;
    if TIMER in s.sys.senders && s.sys.senders[TIMER].WantsSend? {
      SectionOfTimer(s);
      u := Next(s, Section(TIMER));
      ReachesByStep(s, Section(TIMER), id);
    }
    t := u;
    if TIMER in u.sys.senders {
      ReleaseOfTimer(u);
      t := Next(u, Release(TIMER, 1));
      ReachesByStep(u, Release(TIMER, 1), id);
      ReachesOn(s, u, t, 0, 0, id);
    }
  }

  /** One more expiry of timer `id` behind everything that is queued. */
  lemma OneMore(s: Loop, id: TimerId) returns (t: Loop)
    requires TIMER !in s.sys.senders && !s.sys.core.disconnected
    ensures Reaches(s, t, 0, id) && SameInside(s, t) && TIMER !in t.sys.senders && Longer(s, t, 1)
    ensures t.sys.core.permits > 0
  {
    hide Enabled, Next, Reaches;
    ExpireNow(s, id);
    var u := Next(s, Expire(id));
    ReachesByStep(s, Expire(id), id);
    t := FinishSend(u, id);
    ReachesOn(s, u, t, 0, 0, id);
  }

  /** `n` more expiries, and a permit to look at them. */
  lemma {:induction false} Fill(s: Loop, n: nat, id: TimerId) returns (t: Loop)
    requires TimerSends(s) && !s.sys.core.disconnected
    ensures Reaches(s, t, 0, id) && SameInside(s, t) && TIMER !in t.sys.senders && Longer(s, t, n)
    ensures n > 0 ==> t.sys.core.permits > 0
  {
    hide Reaches;
    if n == 0 {
      t := FinishSend(s, id);
    } else {
      var u := Fill(s, n - 1, id);
      t := OneMore(u, id);
      ReachesOn(s, u, t, 0, 0, id);
    }
  }

  // ---- the Exit's own batch ----

  /** The next batch, while the Exit is queued. */
  lemma TakeBatch(s: Loop, id: TimerId) returns (t: Loop)
    requires !s.stopRequested && (s.sys.rx.Holding? || (s.sys.rx.Idle? && s.sys.core.permits > 0))
    requires |s.sys.core.queue| >= MAX_EVENTS_PER_LOOP
    ensures Reaches(s, t, 0, id)
    ensures t.sys.rx == C.Passing(s.sys.core.queue[..MAX_EVENTS_PER_LOOP], |s.sys.core.queue| - MAX_EVENTS_PER_LOOP)
    ensures t.sys.senders == s.sys.senders && t.stopChecked == s.stopChecked && t.stopping == s.stopping
    ensures t.sys.core.disconnected == s.sys.core.disconnected && !t.stopRequested && t.timers == s.timers
  {
    hide Reaches;
    var u := s;
    ReachesItself(s, id);
    if s.sys.rx.Idle? {
      u := Next(s, Acquire);
      ReachesByStep(s, Acquire, id);
    }
    t := Next(u, Take);
    ReachesByStep(u, Take, id);
    ReachesOn(s, u, t, 0, 0, id);
  }

  lemma {:induction false} AllWork(q: seq<Event>)
    ensures (forall i :: 0 <= i < |q| ==> !q[i].Exit?) ==> NonExits(q) == |q|
    ensures Exit in q ==> NonExits(q) < |q|
  {
    if |q| == 0 {
    } else {
      AllWork(q[1..]);
      assert q == [q[0]] + q[1..];
    }
  }

  /** What the invariant says while the Exit is queued. */
  lemma QueuedExit(s: Loop)
    requires Inv(s) && ExitAccepted(s) && ExitQueued(s)
    ensures !s.sys.core.disconnected && !s.sys.rx.Dropped? && s.stopping
    ensures ExitFirst(s.sys.core.queue) && ExitOnlyFirst(s.sys.core.queue)
    ensures Exit !in C.InFlight(s.sys) && TimerSends(s)
  {
    assert SendersInv(s);
  }

  /** With the Exit at the head of the queue and nothing in flight, 9 more events can follow it. */
  lemma NineBehindTheExit(s: Loop, id: TimerId) returns (t: Loop)
    requires !s.sys.core.disconnected && !s.stopRequested && (s.sys.rx.Idle? || s.sys.rx.Holding?)
    requires ExitFirst(s.sys.core.queue) && ExitOnlyFirst(s.sys.core.queue) && TimerSends(s)
    ensures Reaches(s, t, MAX_EVENTS_PER_LOOP - 1, id)
  {
    hide Reaches;
    var u := Fill(s, MAX_EVENTS_PER_LOOP, id);
    var v := TakeBatch(u, id);
    ReachesOn(s, u, v, 0, 0, id);
    t := DispatchAll(v, id);
    ReachesOn(s, v, t, 0, NonExits(v.sys.rx.rest), id);
    AllWork(v.sys.rx.rest[1..]);
  }

  /** The end of a pass. */
  lemma FinishPass(s: Loop, id: TimerId) returns (t: Loop)
    requires s.sys.rx.Passing?
    ensures Reaches(s, t, NonExits(s.sys.rx.rest), id)
    ensures t.sys.rx.Idle? && SameOutside(s, t) && t.stopRequested == (s.stopRequested || Exit in s.sys.rx.rest)
  {
    hide Reaches;
    var u := DispatchAll(s, id);
    t := Next(u, EndPass(1));
    ReachesByStep(u, EndPass(1), id);
    ReachesOn(s, u, t, NonExits(s.sys.rx.rest), 0, id);
  }

  lemma AllowanceCanBeSpent(s: Loop, id: TimerId) returns (t: Loop)
    requires Inv(s) && ExitAccepted(s)
    ensures Reaches(s, t, Allowance(s), id)
  {
    if ExitQueued(s) {
      QueuedExit(s);
    }
    hide Reaches, Inv;
    ReachesItself(s, id);
    var u := s;
    if s.sys.rx.Passing? {
      u := FinishPass(s, id);
    }
    t := u;
    if ExitQueued(s) {
      t := NineBehindTheExit(u, id);
      ReachesOn(s, u, t, NonExits(C.InFlight(s.sys)), MAX_EVENTS_PER_LOOP - 1, id);
    }
  }

  // ---- exactly how much work follows ----

  /** The bound of `BoundedWorkAfterStop` is exact in every state, for every timer `id`: expiries of that timer alone, sent
    while nobody else takes a step, make the thread dispatch all that is allowed; and no continuation at all makes it
    dispatch more. */
  lemma AllowanceIsTheMaximum(s: Loop, id: TimerId)
    requires Inv(s) && ExitAccepted(s)
    ensures exists acts :: Valid(s, acts) && OnlyExpiries(acts, id) && Work(s, acts) == Allowance(s)
    ensures forall acts :: Valid(s, acts) ==> Work(s, acts) <= Allowance(s)
  {
    hide Inv, ExitAccepted, Valid, Run, Work, Allowance, OnlyExpiries;
    var t := AllowanceCanBeSpent(s, id);
    var acts :| Leads(s, acts, t, Allowance(s)) && OnlyExpiries(acts, id);
    forall more | Valid(s, more) ensures Work(s, more) <= Allowance(s) {
      RunSpendsAllowance(s, more);
    }
  }

  /** So no event but Exit is dispatched any more, in any continuation, if and only if the Exit has left the queue and
    the batch in flight holds nothing else. It makes no difference whether all continuations are meant or only those in
    which nobody but the loop and the timer thread does anything. */
  lemma NoMoreWorkIff(s: Loop, id: TimerId)
    requires Inv(s) && ExitAccepted(s)
    ensures (forall acts :: Valid(s, acts) ==> Work(s, acts) == 0) <==>
            (!ExitQueued(s) && forall e :: e in C.InFlight(s.sys) ==> e.Exit?)
    ensures (forall acts :: Valid(s, acts) && OnlyExpiries(acts, id) ==> Work(s, acts) == 0) <==>
            (!ExitQueued(s) && forall e :: e in C.InFlight(s.sys) ==> e.Exit?)
  {
    AllowanceIsTheMaximum(s, id);
    NoWorkIn(C.InFlight(s.sys));
    hide Inv, Valid, Run, Work, OnlyExpiries;
    if Allowance(s) == 0 {
    } else {
      var acts :| Valid(s, acts) && OnlyExpiries(acts, id) && Work(s, acts) == Allowance(s);
    }
  }

  lemma {:induction false} NoWorkIn(q: seq<Event>)
    ensures NonExits(q) == 0 <==> forall e :: e in q ==> e.Exit?
  {
    if |q| == 0 {
    } else {
      NoWorkIn(q[1..]);
      assert q == [q[0]] + q[1..];
    }
  }

  // ---- 19 events after a stop ----

  lemma BeginStop(s: Loop, c: nat) returns (t: Loop)
    requires c != TIMER && c !in s.sys.senders && c !in s.stopChecked && !s.stopping && !s.sys.core.disconnected
    ensures Enabled(s, StopCheck(c)) && Enabled(Next(s, StopCheck(c)), StopStore(c))
    ensures t == Next(Next(s, StopCheck(c)), StopStore(c))
    ensures Enabled(t, Section(c)) && t.sys.senders[c].WantsFlush? && t.sys.rx == s.sys.rx
    ensures !t.sys.core.disconnected && t.stopRequested == s.stopRequested && t.timers == s.timers
  {
    t := Next(Next(s, StopCheck(c)), StopStore(c));
  }

  lemma StartFirst(id: TimerId)
    ensures Enabled(Init(), StartTimer(id))
    ensures Next(Init(), StartTimer(id)) == Init().(timers := {id}, started := {id})
  {
  }

  /** A thread that has ten expiries of its timer in flight when a `Stop` call is about to flush. */
  lemma TenInFlight(c: nat, id: TimerId) returns (before: seq<Act>)
    requires c != TIMER
    ensures Valid(Init(), before) && forall i :: 0 <= i < |before| ==> !before[i].Transmit?
    ensures var s := Run(Init(), before);
      && Enabled(s, Section(c)) && s.sys.senders[c].WantsFlush? && id in s.timers && Exit !in C.InFlight(s.sys)
      && !s.sys.core.disconnected && !s.stopRequested && NonExits(C.InFlight(s.sys)) == MAX_EVENTS_PER_LOOP
  {
    hide Reaches, Enabled, Next, Valid, Run, Work;
    StartFirst(id);
    var s0 := Next(Init(), StartTimer(id));
    RunOne(Init(), StartTimer(id));
    var s1 := Fill(s0, MAX_EVENTS_PER_LOOP, id);
    assert c !in s0.sys.senders - {TIMER};
    var s2 := TakeBatch(s1, id);
    ReachesOn(s0, s1, s2, 0, 0, id);
    AllWork(C.InFlight(s2.sys));
    before := ThenStop(s0, s2, c, id);
  }

  lemma ThenStop(s0: Loop, s2: Loop, c: nat, id: TimerId) returns (before: seq<Act>)
    requires Valid(Init(), [StartTimer(id)]) && Run(Init(), [StartTimer(id)]) == s0 && Reaches(s0, s2, 0, id)
    requires c != TIMER && c !in s2.sys.senders && c !in s2.stopChecked && !s2.stopping && !s2.sys.core.disconnected
    ensures Valid(Init(), before) && forall i :: 0 <= i < |before| ==> !before[i].Transmit?
    ensures var s := Run(Init(), before);
      && Enabled(s, Section(c)) && s.sys.senders[c].WantsFlush? && s.sys.rx == s2.sys.rx && s.timers == s2.timers
      && !s.sys.core.disconnected && s.stopRequested == s2.stopRequested
  {
    hide Enabled, Next, Valid, Run, Work;
    var acts :| Leads(s0, acts, s2, 0) && OnlyExpiries(acts, id);
    RunsCompose(Init(), [StartTimer(id)], acts);
    var t := BeginStop(s2, c);
    RunSnoc(Init(), [StartTimer(id)] + acts, StopCheck(c));
    RunSnoc(Init(), [StartTimer(id)] + acts + [StopCheck(c)], StopStore(c));
    before := [StartTimer(id)] + acts + [StopCheck(c)] + [StopStore(c)];
  }

  lemma StopSectionQueuesExit(s: Loop, c: nat)
    requires Inv(s) && Enabled(s, Section(c)) && s.sys.senders[c].WantsFlush? && !s.sys.core.disconnected
    requires !s.stopRequested && Exit !in C.InFlight(s.sys)
    ensures var t := Next(s, Section(c));
      Inv(t) && ExitAccepted(t) && Allowance(t) == NonExits(C.InFlight(s.sys)) + MAX_EVENTS_PER_LOOP - 1
  {
    hide Inv, Enabled, Next, Allowance;
    StepNeeds(s, Section(c));
    StepKeepsInv(s, Section(c));
    FlushIsExit(s, c);
    RxAfter(s, Section(c));
    DeliveryAfter(s, Section(c));
    var t := Next(s, Section(c));
    assert t.sys.core.log[|s.sys.core.log|] == Exit;
    AllowanceWhileQueued(s, t);
  }

  lemma AllowanceWhileQueued(s: Loop, t: Loop)
    requires t.sys.rx == s.sys.rx && !t.stopRequested && Exit !in C.InFlight(s.sys)
    ensures Allowance(t) == NonExits(C.InFlight(s.sys)) + MAX_EVENTS_PER_LOOP - 1
  {
    hide NonExits;
  }

  lemma FlushIsExit(s: Loop, c: nat)
    requires Inv(s) && c in s.sys.senders && s.sys.senders[c].WantsFlush?
    ensures s.sys.senders[c].value == Exit
  {
    assert SendersInv(s);
  }

  /** The 19 of `StopBoundsTheWork` happen, and no read of `m_stopping` need be stale for it: the thread starts one timer
    and nobody ever transmits anything. Ten of the timer's expiries are in flight when `Stop` flushes, and nine more,
    which do not pass the check at all, end up behind the Exit in its batch. */
  lemma NineteenHappen(id: TimerId)
    ensures exists before: seq<Act>, c: nat, after: seq<Act> ::
      && Valid(Init(), before) && (forall i :: 0 <= i < |before| ==> !before[i].Transmit?)
      && id in Run(Init(), before).timers && Enabled(Run(Init(), before), Section(c))
      && Run(Init(), before).sys.senders[c].WantsFlush? && !Run(Init(), before).sys.core.disconnected
      && Valid(Next(Run(Init(), before), Section(c)), after) && OnlyExpiries(after, id)
      && Work(Next(Run(Init(), before), Section(c)), after) == 19
  {
    hide Enabled, Next, Valid, Run, Work, OnlyExpiries;
    var c := TIMER + 1;
    var before := TenInFlight(c, id);
    var s := Run(Init(), before);
    InitHasInv();
    RunKeepsInv(Init(), before);
    StopSectionQueuesExit(s, c);
    var t := Next(s, Section(c));
    AllowanceIsTheMaximum(t, id);
    var after :| Valid(t, after) && OnlyExpiries(after, id) && Work(t, after) == Allowance(t);
  }

  lemma InitHasInv()
    ensures Inv(Init())
  {
  }
}
