/** The `Thread` class of src/threading/thread.cpp, updating its fields in place.

  Other threads act between any two steps of the loop. `Interfere` lets them: it takes a schedule of what they try to do
  and performs what is possible on the same fields. Every step of the object and of its environment is recorded in
  `trace`, and the object is always in the state that `EventLoop.Run` computes from it: whatever is proved there about
  all runs holds of this code. */
module Threads {
  import opened Events
  import opened Channel
  import C = ChannelRuns
  import opened EventLoop
  import LoopTimers

  /** Steps that are not the event loop's own: other threads, and the timers that handlers start and stop. */
  predicate IsForeign(a: Act) {
    a.Transmit? || a.Refused? || a.Expire? || a.StopCheck? || a.StopStore? || a.Section? || a.Release? ||
    a.StartTimer? || a.StopTimer?
  }

  lemma TransmitEffect(s: Loop, c: nat, e: Event)
    requires c != TIMER && c !in s.stopChecked && c !in s.sys.senders && !e.Exit? && !e.Expired?
    ensures s.stopping ==> Enabled(s, Refused(c)) && Next(s, Refused(c)) == s
    ensures Enabled(s, Transmit(c, e))
    ensures Next(s, Transmit(c, e)) == s.(sys := s.sys.(senders := s.sys.senders[c := C.WantsSend(e)]))
  {
  }

  lemma SectionEffect(s: Loop, c: nat)
    requires c in s.sys.senders && !s.sys.senders[c].Releasing?
    ensures Enabled(s, Section(c))
    ensures Next(s, Section(c)) == s.(sys := s.sys.(
      core := if s.sys.senders[c].WantsSend? then Accept(s.sys.core, s.sys.senders[c].value)
              else FlushAccept(s.sys.core, s.sys.senders[c].value),
      senders := if s.sys.core.disconnected then s.sys.senders - {c} else s.sys.senders[c := C.Releasing]))
  {
  }

  lemma ExpireEffect(s: Loop, id: TimerId)
    requires TIMER !in s.sys.senders
    ensures Enabled(s, Expire(id)) && Next(s, Expire(id)) == s.(expiries := s.expiries + [id],
      sys := s.sys.(senders := s.sys.senders[TIMER := C.WantsSend(Expired(id))]))
  {
  }

  lemma StopCheckEffect(s: Loop, c: nat)
    requires c != TIMER && c !in s.stopChecked && c !in s.sys.senders
    ensures s.stopping ==> Enabled(s, Refused(c)) && Next(s, Refused(c)) == s
    ensures !s.stopping ==>
      Enabled(s, StopCheck(c)) && Next(s, StopCheck(c)) == s.(stopChecked := s.stopChecked + {c})
  {
  }

  lemma ReleaseEffect(s: Loop, c: nat, to: nat)
    requires c in s.sys.senders && s.sys.senders[c].Releasing? && CanRelease(s.sys.core, to)
    ensures Enabled(s, Release(c, to)) && Next(s, Release(c, to)) ==
      s.(sys := s.sys.(core := s.sys.core.(permits := to), senders := s.sys.senders - {c}))
  {
  }

  lemma StopStoreEffect(s: Loop, c: nat)
    requires c in s.stopChecked && c !in s.sys.senders
    ensures Enabled(s, StopStore(c))
    ensures Next(s, StopStore(c)) == s.(stopChecked := s.stopChecked - {c}, stopping := true,
      sys := s.sys.(senders := s.sys.senders[c := C.WantsFlush(Exit)]))
  {
  }

  lemma StartTimerEffect(s: Loop, id: TimerId)
    requires s.phase.Running? && id !in s.started
    ensures Enabled(s, EventLoop.StartTimer(id))
    ensures Next(s, EventLoop.StartTimer(id)) == s.(timers := s.timers + {id}, started := s.started + {id})
  {
  }

  lemma StopTimerEffect(s: Loop, id: TimerId)
    requires s.phase.Running?
    ensures Enabled(s, EventLoop.StopTimer(id))
    ensures Next(s, EventLoop.StopTimer(id)) ==
      if id in s.timers then s.(timers := s.timers - {id}, stopRequests := s.stopRequests + [id]) else s
  {
  }

  lemma ForeignFrame(s: Loop, a: Act)
    requires Enabled(s, a) && IsForeign(a)
    ensures var t := Next(s, a);
      && t.sys.rx == s.sys.rx && t.sys.delivered == s.sys.delivered && t.stopRequested == s.stopRequested
      && t.phase == s.phase && t.sys.core.disconnected == s.sys.core.disconnected
  {
  }

  lemma AcquireEffect(s: Loop)
    requires !s.stopRequested && s.sys.rx.Idle?
    ensures Enabled(s, Timeout) && Next(s, Timeout) == s
    ensures s.sys.core.permits > 0 ==>
      Enabled(s, Acquire) &&
      Next(s, Acquire) == s.(sys := s.sys.(core := s.sys.core.(permits := s.sys.core.permits - 1), rx := C.Holding))
  {
  }

  lemma TakeEffect(s: Loop, batch: seq<Event>, left: nat)
    requires s.sys.rx.Holding?
    requires var n := BatchSize(s.sys.core, MAX_EVENTS_PER_LOOP);
      batch == s.sys.core.queue[..n] && left == |s.sys.core.queue| - n
    ensures Enabled(s, Take) && Next(s, Take) ==
      s.(sys := s.sys.(core := Taken(s.sys.core, MAX_EVENTS_PER_LOOP),
                       rx := if |batch| == 0 then C.Idle else C.Passing(batch, left)))
  {
  }

  lemma DispatchEffect(s: Loop, to: nat)
    requires C.Enabled(s.sys, C.Deliver) && CanRelease(s.sys.core, to)
    ensures Enabled(s, Dispatch(to))
    ensures var e := s.sys.rx.rest[0];
      Next(s, Dispatch(to)) == Handle(s, e).(sys :=
        s.sys.(rx := C.Passing(s.sys.rx.rest[1..], s.sys.rx.left), delivered := s.sys.delivered + [e],
               core := if e.Exit? && !s.stopRequested then s.sys.core.(permits := to) else s.sys.core))
  {
  }

  lemma EndPassEffect(s: Loop, to: nat)
    requires s.sys.rx.Passing? && |s.sys.rx.rest| == 0 && CanRelease(s.sys.core, to)
    ensures Enabled(s, EndPass(to)) && Next(s, EndPass(to)) ==
      s.(sys := s.sys.(core := if s.sys.rx.left > 0 then s.sys.core.(permits := to) else s.sys.core, rx := C.Idle))
  {
  }

  lemma CloseEffect(s: Loop)
    ensures s.phase.Running? && s.sys.rx.Dropped? ==>
      Enabled(s, BeginClose) && Next(s, BeginClose) == s.(phase := Closing(s.timers))
    ensures s.phase == Closing({}) ==> Enabled(s, End) && Next(s, End) == s.(phase := Ended)
    ensures forall id :: s.phase.Closing? && id in s.phase.todo ==>
      Enabled(s, CloseTimer(id)) &&
      Next(s, CloseTimer(id)) == s.(phase := Closing(s.phase.todo - {id}), stopRequests := s.stopRequests + [id])
  {
  }

  lemma LeaveEffect(s: Loop)
    requires s.stopRequested && s.sys.rx.Idle?
    ensures Enabled(s, Leave) && Next(s, Leave) ==
      s.(sys := s.sys.(core := s.sys.core.(disconnected := true), rx := C.Dropped))
  {
  }

  type Schedule = seq<seq<Act>>

  function At(env: Schedule, i: nat): seq<Act> {
    if i < |env| then env[i] else []
  }

  /** A loop that made passes with these batches has ended after the first that held an Exit, and at no other. */
  predicate StopsAtExit(batches: seq<seq<Event>>, ended: bool) {
    && (ended <==> |batches| > 0 && Exit in batches[|batches| - 1])
    && (forall i :: 0 <= i < |batches| - 1 ==> Exit !in batches[i])
  }

  lemma StopsAtExitOn(batches: seq<seq<Event>>, batch: seq<Event>)
    requires StopsAtExit(batches, false)
    ensures StopsAtExit(batches + [batch], Exit in batch)
  {
  }

  /** One call of `ProcessEvents`: does the wait give up early, and what happens meanwhile. */
  datatype Pass = Pass(expired: bool, env: Schedule)

  /** The first `n` passes each waited for a permit once, and got one exactly if there was one and the wait did not give up
    early. */
  predicate WaitedFor(before: seq<Wait>, waits: seq<Wait>, passes: seq<Pass>, n: nat) {
    && n <= |passes| && before <= waits && |waits| == |before| + n
    && forall i :: |before| <= i < |waits| ==>
         waits[i].acquired == (!passes[i - |before|].expired && waits[i].permits > 0)
  }

  lemma WaitedOnce(before: seq<Wait>, waits: seq<Wait>, passes: seq<Pass>, n: nat, w: Wait)
    requires WaitedFor(before, waits, passes, n) && n < |passes|
    requires w.acquired == (!passes[n].expired && w.permits > 0)
    ensures WaitedFor(before, waits + [w], passes, n + 1)
  {
  }

  class Thread {
    const notifier: Notifier<Event>
    var stopping: bool
    var stopRequested: bool  // of the stop token
    var entered: bool  // `Enter` is past the start latch
    var running: bool
    var closing: bool  // `Enter` is past `Stopping()`: the owner starts and stops no more timers
    var timers: map<TimerId, string>
    var issued: set<TimerId>  // what `RequestTimerAdd` has returned to this thread so far

    // what the code does to the outside
    var callbacksRun: seq<TimerId>
    var unknownExpiries: seq<TimerId>
    var addsSent: seq<TimerId>
    var stopsSent: seq<TimerId>
    var handled: seq<Event>  // calls of `HandleEvent`

    // where the other threads stand in their calls on this object
    var callers: map<nat, C.SenderPc<Event>>
    var stopChecked: set<nat>

    ghost var trace: seq<Act>
    ghost var model: Loop
    ghost var waits: seq<Wait>

    ghost predicate Valid()
      reads this, notifier
    {
      History() && Agrees() && RunningAgrees()
    }

    ghost predicate History()
      reads this
    {
      EventLoop.Valid(Init(), trace) && model == Run(Init(), trace) && waits == Waits(Init(), trace)
    }

    /** `IsRunning` says true from the start of `Enter` to its end, and the loop is in between. */
    ghost predicate RunningAgrees()
      reads this
    {
      && running == (entered && !model.phase.Ended?)
      && (!entered ==> model.sys.rx.Idle? && model.phase.Running?)
    }

    ghost predicate Agrees()
      reads this, notifier
    {
      && model.sys.core == notifier.State() && model.sys.senders == callers && model.stopChecked == stopChecked
      && model.stopping == stopping && model.stopRequested == stopRequested && model.timers == timers.Keys
      && model.started == issued && closing == !model.phase.Running?
      && model.callbacks == callbacksRun && model.unknown == unknownExpiries && model.stopRequests == stopsSent
      && multiset(addsSent) == multiset(issued)
    }

    constructor ()
      ensures Valid() && fresh(notifier) && trace == [] && model == Init() && !entered && !running && handled == []
    {
      notifier := new Notifier();
      stopping, stopRequested, closing := false, false, false;
      entered, running := false, false;
      timers, issued := map[], {};
      callbacksRun, unknownExpiries, handled := [], [], [];
      addsSent, stopsSent := [], [];
      callers, stopChecked := map[], {};
      trace, model, waits := [], Init(), [];
    }

    /** The last step taken was `a`. */
    twostate predicate Did(a: Act)
      reads this
    {
      && trace == old(trace) + [a] && Enabled(old(model), a) && model == Next(old(model), a)
      && waits == old(waits) + WaitOf(old(model), a)
    }

    ghost method Record(a: Act)
      requires History() && Enabled(model, a)
      modifies this`trace, this`model, this`waits
      ensures History() && Did(a)
    {
      RunSnoc(Init(), trace, a);
      WaitsSnoc(Init(), trace, a);
      trace, model, waits := trace + [a], Next(model, a), waits + WaitOf(model, a);
    }

    // ---- the callers ----

    /** `TransmitEvent` by caller `c`, up to the locked section; the relaxed check may read a stale false. */
    method TransmitEvent(c: nat, e: Event, staleRead: bool)
      requires Valid() && c != TIMER && c !in stopChecked && c !in callers && !e.Exit? && !e.Expired?
      modifies `callers, `trace, `model, `waits
      ensures Valid() && Did(if stopping && !staleRead then Refused(c) else Transmit(c, e))
      ensures callers == if stopping && !staleRead then old(callers) else old(callers)[c := C.WantsSend(e)]
    {
      hide EventLoop.Next, EventLoop.Enabled, EventLoop.Run, EventLoop.Valid, Waits;
      TransmitEffect(model, c, e);
      if stopping && !staleRead {
        Record(Refused(c));
        return;
      }
      callers := callers[c := C.WantsSend(e)];
      Record(Transmit(c, e));
    }

    /** The timer thread's `tx->send(TimerExpired)`, up to the locked section. */
    method SendExpiry(id: TimerId)
      requires Valid() && TIMER !in callers
      modifies `callers, `trace, `model, `waits
      ensures Valid() && Did(Expire(id)) && callers == old(callers)[TIMER := C.WantsSend(Expired(id))]
    {
      hide EventLoop.Next, EventLoop.Enabled, EventLoop.Run, EventLoop.Valid, Waits;
      ExpireEffect(model, id);
      callers := callers[TIMER := C.WantsSend(Expired(id))];
      Record(Expire(id));
    }

    /** `Stop`, first step: look at `m_stopping`. */
    method StopCheckStep(c: nat) returns (proceed: bool)
      requires Valid() && c != TIMER && c !in stopChecked && c !in callers
      modifies `stopChecked, `trace, `model, `waits
      ensures Valid() && proceed == !stopping && Did(if proceed then StopCheck(c) else Refused(c))
      ensures stopChecked == if proceed then old(stopChecked) + {c} else old(stopChecked)
    {
      hide EventLoop.Next, EventLoop.Enabled, EventLoop.Run, EventLoop.Valid, Waits;
      StopCheckEffect(model, c);
      proceed := !stopping;
      if proceed {
        stopChecked := stopChecked + {c};
        Record(StopCheck(c));
      } else {
        Record(Refused(c));
      }
    }

    /** `Stop`, second step: store true and go on to `flushAndSend`. */
    method StopStoreStep(c: nat)
      requires Valid() && c in stopChecked && c !in callers
      modifies `stopping, `stopChecked, `callers, `trace, `model, `waits
      ensures Valid() && Did(StopStore(c)) && stopping && stopChecked == old(stopChecked) - {c}
      ensures callers == old(callers)[c := C.WantsFlush(Exit)]
    {
      hide EventLoop.Next, EventLoop.Enabled, EventLoop.Run, EventLoop.Valid, Waits;
      StopStoreEffect(model, c);
      stopping, stopChecked := true, stopChecked - {c};
      callers := callers[c := C.WantsFlush(Exit)];
      Record(StopStore(c));
    }

    /** The locked section of whichever channel call `c` is in. */
    method SectionStep(c: nat)
      requires Valid() && c in callers && !callers[c].Releasing?
      modifies `callers, `trace, `model, `waits, notifier
      ensures Valid() && Did(Section(c)) && notifier.rxDisconnected == old(notifier.rxDisconnected)
      ensures notifier.queue ==
        if notifier.rxDisconnected then old(notifier.queue)
        else (if old(callers)[c].WantsSend? then old(notifier.queue) else []) + [old(callers)[c].value]
      ensures callers == if notifier.rxDisconnected then old(callers) - {c} else old(callers)[c := C.Releasing]
    {
      hide EventLoop.Next, EventLoop.Enabled, EventLoop.Run, EventLoop.Valid, Waits;
      if callers[c].WantsSend? {
        SendStep(c);
      } else {
        FlushStep(c);
      }
    }

    method SendStep(c: nat)
      requires Valid() && c in callers && callers[c].WantsSend?
      modifies `callers, `trace, `model, `waits, notifier
      ensures Valid() && Did(Section(c)) && notifier.rxDisconnected == old(notifier.rxDisconnected)
      ensures callers == if notifier.rxDisconnected then old(callers) - {c} else old(callers)[c := C.Releasing]
      ensures notifier.queue ==
        if notifier.rxDisconnected then old(notifier.queue) else old(notifier.queue) + [old(callers)[c].value]
    {
      hide EventLoop.Next, EventLoop.Enabled, EventLoop.Run, EventLoop.Valid, Waits, Accept, FlushAccept;
      SectionEffect(model, c);
      var accepted := notifier.SendSection(callers[c].value);
      callers := if accepted then callers[c := C.Releasing] else callers - {c};
      Record(Section(c));
    }

    method FlushStep(c: nat)
      requires Valid() && c in callers && callers[c].WantsFlush?
      modifies `callers, `trace, `model, `waits, notifier
      ensures Valid() && Did(Section(c)) && notifier.rxDisconnected == old(notifier.rxDisconnected)
      ensures callers == if notifier.rxDisconnected then old(callers) - {c} else old(callers)[c := C.Releasing]
      ensures notifier.queue == if notifier.rxDisconnected then old(notifier.queue) else [old(callers)[c].value]
    {
      hide EventLoop.Next, EventLoop.Enabled, EventLoop.Run, EventLoop.Valid, Waits, Accept, FlushAccept;
      SectionEffect(model, c);
      var accepted := notifier.FlushSection(callers[c].value);
      callers := if accepted then callers[c := C.Releasing] else callers - {c};
      Record(Section(c));
    }

    /** The release that ends a channel call. */
    method ReleaseStep(c: nat)
      requires Valid() && c in callers && callers[c].Releasing?
      modifies `callers, `trace, `model, `waits, notifier
      ensures Valid() && Did(Release(c, notifier.notify))
      ensures callers == old(callers) - {c} && 1 <= notifier.notify <= old(notifier.notify) + 1
    {
      hide EventLoop.Next, EventLoop.Enabled, EventLoop.Run, EventLoop.Valid, Waits;
      notifier.Release();
      ReleaseEffect(model, c, notifier.notify);
      callers := callers - {c};
      Record(Release(c, notifier.notify));
    }

    /** `StartTimer`: request an Add, then register the id. `id` is what `RequestTimerAdd` returns, and no id is issued
      twice. */
    method StartTimer(id: TimerId, name: string)
      requires Valid() && !closing && id !in issued
      modifies `timers, `issued, `addsSent, `trace, `model, `waits
      ensures Valid() && Did(EventLoop.StartTimer(id)) && timers == old(timers)[id := name]
      ensures addsSent == old(addsSent) + [id]
    {
      hide EventLoop.Next, EventLoop.Enabled, EventLoop.Run, EventLoop.Valid, Waits;
      StartTimerEffect(model, id);
      addsSent, issued := addsSent + [id], issued + {id};
      timers := timers[id := name];
      assert timers.Keys == old(timers.Keys) + {id};
      Record(EventLoop.StartTimer(id));
    }

    /** `StopTimer`: an id that is not in the map is only logged. */
    method StopTimer(id: TimerId)
      requires Valid() && !closing
      modifies `timers, `stopsSent, `trace, `model, `waits
      ensures Valid() && Did(EventLoop.StopTimer(id)) && timers == old(timers) - {id}
      ensures stopsSent == if id in old(timers) then old(stopsSent) + [id] else old(stopsSent)
    {
      hide EventLoop.Next, EventLoop.Enabled, EventLoop.Run, EventLoop.Valid, Waits;
      StopTimerEffect(model, id);
      if id in timers {
        timers := timers - {id};
        stopsSent := stopsSent + [id];
        assert timers.Keys == old(timers.Keys) - {id};
      } else {
        assert timers - {id} == timers;
      }
      Record(EventLoop.StopTimer(id));
    }

    /** Another thread's step in a call on this object. */
    method CallerStep(a: Act) returns (ghost did: seq<Act>)
      requires Valid()
      modifies `callers, `stopping, `stopChecked, `trace, `model, `waits, notifier
      ensures Valid() && trace == old(trace) + did && |did| <= 1
      ensures if |did| == 1 then IsForeign(did[0]) && Did(did[0]) else model == old(model) && waits == old(waits)
    {
      hide EventLoop.Next, EventLoop.Enabled, EventLoop.Run, EventLoop.Valid, Waits, History, Agrees;
      did := [];
      match a {
        case Transmit(c, e) =>
          if c != TIMER && c !in stopChecked && c !in callers && !e.Exit? && !e.Expired? {
            TransmitEvent(c, e, true);
            did := [a];
          }
        case Expire(id) =>
          if TIMER !in callers {
            SendExpiry(id);
            did := [a];
          }
        case StopCheck(c) =>
          if c != TIMER && c !in stopChecked && c !in callers {
            var proceed := StopCheckStep(c);
            did := [if proceed then a else Refused(c)];
          }
        case StopStore(c) =>
          if c in stopChecked && c !in callers {
            StopStoreStep(c);
            did := [a];
          }
        case Section(c) =>
          if c in callers && !callers[c].Releasing? {
            SectionStep(c);
            did := [a];
          }
        case Release(c, _) =>
          if c in callers && callers[c].Releasing? {
            ReleaseStep(c);
            did := [Release(c, notifier.notify)];
          }
        case _ =>
      }
    }

    /** A handler, or `Starting` or `Stopping`, starts or stops a timer. */
    method TimerStep(a: Act) returns (ghost did: seq<Act>)
      requires Valid()
      modifies `timers, `issued, `addsSent, `stopsSent, `trace, `model, `waits
      ensures Valid() && trace == old(trace) + did && |did| <= 1
      ensures if |did| == 1 then IsForeign(did[0]) && Did(did[0]) else model == old(model) && waits == old(waits)
      ensures closing ==> timers == old(timers) && stopsSent == old(stopsSent)
    {
      hide EventLoop.Next, EventLoop.Enabled, EventLoop.Run, EventLoop.Valid, Waits, History, Agrees;
      did := [];
      if a.StartTimer? {
        if !closing && a.id !in issued {
          StartTimer(a.id, "");
          did := [a];
        }
      } else if a.StopTimer? {
        if !closing {
          StopTimer(a.id);
          did := [a];
        }
      }
    }

    /** One foreign step, if it is possible now. The value a semaphore is left at is not the schedule's to
      choose. */
    method ForeignStep(a: Act) returns (ghost did: seq<Act>)
      requires Valid()
      modifies `callers, `stopping, `stopChecked, `timers, `issued, `addsSent, `stopsSent, `trace, `model, `waits, notifier
      ensures Valid() && trace == old(trace) + did && |did| <= 1
      ensures if |did| == 1 then IsForeign(did[0]) && Did(did[0]) else model == old(model) && waits == old(waits)
      ensures closing ==> timers == old(timers) && stopsSent == old(stopsSent)
    {
      hide EventLoop.Next, EventLoop.Enabled, EventLoop.Run, EventLoop.Valid, Waits, History, Agrees, IsForeign;
      if a.StartTimer? || a.StopTimer? {
        did := TimerStep(a);
      } else {
        did := CallerStep(a);
      }
    }

    /** Everything the environment does between two steps of the loop. */
    method Interfere(acts: seq<Act>)
      requires Valid()
      modifies `callers, `stopping, `stopChecked, `timers, `issued, `addsSent, `stopsSent, `trace, `model, `waits, notifier
      ensures Valid() && old(trace) <= trace && Passes(trace) == old(Passes(trace))
      ensures model.sys.rx == old(model.sys.rx) && model.sys.delivered == old(model.sys.delivered)
      ensures model.phase == old(model.phase) && (closing ==> timers == old(timers) && stopsSent == old(stopsSent))
      ensures waits == old(waits)
    {
      hide EventLoop.Next, EventLoop.Enabled, EventLoop.Run, EventLoop.Valid, Waits;
      for i := 0 to |acts|
        invariant Valid() && old(trace) <= trace && Passes(trace) == old(Passes(trace))
        invariant model.sys.rx == old(model.sys.rx) && model.sys.delivered == old(model.sys.delivered)
        invariant model.phase == old(model.phase) && (closing ==> timers == old(timers) && stopsSent == old(stopsSent))
        invariant waits == old(waits)
      {
        ghost var before, t := model, trace;
        ghost var did := ForeignStep(acts[i]);
        if |did| == 1 {
          ForeignFrame(before, did[0]);
          assert trace[..|t|] == t;
        } else {
          assert trace == t;
        }
      }
    }

    // ---- the loop ----

    /** `try_acquire_for`. */
    method AcquireStep(expired: bool) returns (acquired: bool)
      requires Valid() && model.sys.rx.Idle? && !stopRequested && running
      modifies `trace, `model, `waits, notifier
      ensures Valid() && Did(if acquired then Acquire else Timeout)
      ensures waits == old(waits) + [Wait(old(notifier.notify), acquired)]
      ensures acquired == (!expired && old(notifier.notify) > 0)
      ensures notifier.notify == if acquired then old(notifier.notify) - 1 else old(notifier.notify)
      ensures model.phase == old(model.phase) && model.sys.delivered == old(model.sys.delivered)
      ensures model.sys.rx == if acquired then C.Holding else C.Idle
    {
      hide EventLoop.Next, EventLoop.Enabled, EventLoop.Run, EventLoop.Valid, Waits;
      AcquireEffect(model);
      acquired := notifier.TryAcquire(expired);
      Record(if acquired then Acquire else Timeout);
    }

    /** The locked section of `tryReceiveLimitedMany`. */
    method TakeStep() returns (events: seq<Event>, leftInQueue: nat)
      requires Valid() && model.sys.rx.Holding?
      modifies `trace, `model, `waits, notifier
      ensures Valid() && Did(Take) && |events| <= MAX_EVENTS_PER_LOOP
      ensures events == old(model.sys.core.queue)[..BatchSize(old(model.sys.core), MAX_EVENTS_PER_LOOP)]
      ensures events + notifier.queue == old(notifier.queue) && leftInQueue == |notifier.queue|
      ensures |events| <= 10 && (|events| < 10 ==> leftInQueue == 0)
      ensures model.phase == old(model.phase) && model.sys.delivered == old(model.sys.delivered)
      ensures model.sys.rx == if |events| == 0 then C.Idle else C.Passing(events, leftInQueue)
    {
      hide EventLoop.Next, EventLoop.Enabled, EventLoop.Run, EventLoop.Valid, Waits;
      events, leftInQueue := notifier.TakeSection(MAX_EVENTS_PER_LOOP);
      TakeEffect(model, events, leftInQueue);
      Record(Take);
    }

    /** One round of the dispatch loop, for the event `e` at the front of the batch. */
    method DispatchStep(e: Event) returns (ghost to: nat)
      requires Valid() && C.Enabled(model.sys, C.Deliver) && e == model.sys.rx.rest[0]
      modifies `stopRequested, `callbacksRun, `unknownExpiries, `handled, `trace, `model, `waits, notifier
      ensures Valid() && Did(Dispatch(to))
      ensures model.phase == old(model.phase) && model.sys.delivered == old(model.sys.delivered) + [e]
      ensures model.sys.rx == C.Passing(old(model.sys.rx.rest)[1..], old(model.sys.rx.left))
      ensures handled == if e.Shutdown? || e.WorkerTest? then old(handled) + [e] else old(handled)
      ensures stopRequested == (old(stopRequested) || e.Exit?)
      ensures e.Exit? && !old(stopRequested) ==> 1 <= notifier.notify <= old(notifier.notify) + 1
      ensures !e.Exit? || old(stopRequested) ==> notifier.notify == old(notifier.notify)
      ensures callbacksRun == if e.Expired? && e.id in timers then old(callbacksRun) + [e.id] else old(callbacksRun)
      ensures unknownExpiries ==
        if e.Expired? && e.id !in timers then old(unknownExpiries) + [e.id] else old(unknownExpiries)
    {
      hide EventLoop.Next, EventLoop.LocalNext, EventLoop.Enabled, EventLoop.Run, EventLoop.Valid, Waits, History, Agrees;
      match e {
        case Expired(id) =>
          HandleExpiry(id);
          to := 1;
        case Exit =>
          to := HandleExit();
        case Null =>
          SkipEvent(e);
          to := 1;
        case _ =>
          CallHandler(e);
          SkipEvent(e);
          to := 1;
      }
    }

    /** `HandleEvent`, which is the derived class's own. */
    method CallHandler(e: Event)
      requires Valid()
      modifies `handled
      ensures Valid() && handled == old(handled) + [e]
    {
      handled := handled + [e];
    }

    /** The round for an Exit. */
    method HandleExit() returns (to: nat)
      requires Valid() && C.Enabled(model.sys, C.Deliver) && model.sys.rx.rest[0] == Exit
      modifies `stopRequested, `trace, `model, `waits, notifier
      ensures Valid() && Did(Dispatch(to)) && stopRequested
      ensures if old(stopRequested) then notifier.notify == old(notifier.notify)
              else 1 <= notifier.notify <= old(notifier.notify) + 1
      ensures model.phase == old(model.phase) && model.sys.delivered == old(model.sys.delivered) + [Exit]
      ensures model.sys.rx == C.Passing(old(model.sys.rx.rest)[1..], old(model.sys.rx.left))
    {
      hide EventLoop.Next, EventLoop.LocalNext, EventLoop.Enabled, EventLoop.Run, EventLoop.Valid, Waits;
      to := HandleSelfEvent();
      DispatchEffect(old(model), to);
      Record(Dispatch(to));
    }

    /** The round for an event that changes nothing here: an empty pointer, or one `HandleEvent` was called for. */
    ghost method SkipEvent(e: Event)
      requires Valid() && C.Enabled(model.sys, C.Deliver) && e == model.sys.rx.rest[0] && !e.Exit? && !e.Expired?
      modifies `trace, `model, `waits
      ensures Valid() && Did(Dispatch(1))
      ensures model.phase == old(model.phase) && model.sys.delivered == old(model.sys.delivered) + [e]
      ensures model.sys.rx == C.Passing(old(model.sys.rx.rest)[1..], old(model.sys.rx.left))
    {
      hide EventLoop.Next, EventLoop.LocalNext, EventLoop.Enabled, EventLoop.Run, EventLoop.Valid, Waits;
      DispatchEffect(model, 1);
      Record(Dispatch(1));
    }

    /** `HandleSelfEvent` for Exit: only the first stop request runs the stop callback, which wakes this thread. */
    method HandleSelfEvent() returns (to: nat)
      modifies `stopRequested, notifier
      ensures stopRequested && CanRelease(old(notifier.State()), to)
      ensures if old(stopRequested) then notifier.notify == old(notifier.notify)
              else 1 <= notifier.notify <= old(notifier.notify) + 1
      ensures notifier.State() ==
        if old(stopRequested) then old(notifier.State()) else old(notifier.State()).(permits := to)
    {
      to := 1;
      if !stopRequested {
        stopRequested := true;
        notifier.Release();
        to := notifier.notify;
      }
    }

    /** A timer expiry: run the callback of a timer that is still registered. */
    method HandleExpiry(id: TimerId)
      requires Valid() && C.Enabled(model.sys, C.Deliver) && model.sys.rx.rest[0] == Expired(id)
      modifies `callbacksRun, `unknownExpiries, `trace, `model, `waits
      ensures Valid() && Did(Dispatch(1))
      ensures model.phase == old(model.phase) && model.sys.delivered == old(model.sys.delivered) + [Expired(id)]
      ensures model.sys.rx == C.Passing(old(model.sys.rx.rest)[1..], old(model.sys.rx.left))
      ensures callbacksRun == if id in timers then old(callbacksRun) + [id] else old(callbacksRun)
      ensures unknownExpiries == if id in timers then old(unknownExpiries) else old(unknownExpiries) + [id]
    {
      hide EventLoop.Next, EventLoop.LocalNext, EventLoop.Enabled, EventLoop.Run, EventLoop.Valid, Waits;
      if id in timers {
        RunCallback(id);
      } else {
        LogUnknown(id);
      }
    }

    method RunCallback(id: TimerId)
      requires Valid() && C.Enabled(model.sys, C.Deliver) && model.sys.rx.rest[0] == Expired(id) && id in timers
      modifies `callbacksRun, `trace, `model, `waits
      ensures Valid() && Did(Dispatch(1)) && callbacksRun == old(callbacksRun) + [id]
      ensures model.phase == old(model.phase) && model.sys.delivered == old(model.sys.delivered) + [Expired(id)]
      ensures model.sys.rx == C.Passing(old(model.sys.rx.rest)[1..], old(model.sys.rx.left))
    {
      hide EventLoop.Next, EventLoop.LocalNext, EventLoop.Enabled, EventLoop.Run, EventLoop.Valid, Waits;
      DispatchEffect(model, 1);
      callbacksRun := callbacksRun + [id];
      Record(Dispatch(1));
    }

    method LogUnknown(id: TimerId)
      requires Valid() && C.Enabled(model.sys, C.Deliver) && model.sys.rx.rest[0] == Expired(id) && id !in timers
      modifies `unknownExpiries, `trace, `model, `waits
      ensures Valid() && Did(Dispatch(1)) && unknownExpiries == old(unknownExpiries) + [id]
      ensures model.phase == old(model.phase) && model.sys.delivered == old(model.sys.delivered) + [Expired(id)]
      ensures model.sys.rx == C.Passing(old(model.sys.rx.rest)[1..], old(model.sys.rx.left))
    {
      hide EventLoop.Next, EventLoop.LocalNext, EventLoop.Enabled, EventLoop.Run, EventLoop.Valid, Waits;
      DispatchEffect(model, 1);
      unknownExpiries := unknownExpiries + [id];
      Record(Dispatch(1));
    }

    /** The left-over check at the end of `ProcessEvents`. */
    method EndPassStep(leftInQueue: nat) returns (ghost to: nat)
      requires Valid() && model.sys.rx == C.Passing([], leftInQueue)
      modifies `trace, `model, `waits, notifier
      ensures Valid() && Did(EndPass(to)) && model.sys.rx.Idle?
      ensures if leftInQueue > 0 then 1 <= notifier.notify <= old(notifier.notify) + 1
              else notifier.notify == old(notifier.notify)
      ensures model.phase == old(model.phase) && model.sys.delivered == old(model.sys.delivered)
    {
      hide EventLoop.Next, EventLoop.Enabled, EventLoop.Run, EventLoop.Valid, Waits;
      to := 1;
      if leftInQueue > 0 {
        notifier.Release();
        to := notifier.notify;
      }
      EndPassEffect(model, to);
      Record(EndPass(to));
    }

    /** `ProcessEvents`. Either the wait ends without a permit and nothing happens, or one pass is made: at most 10
      events leave the queue and every one of them is dispatched, in order, before the loop looks again. */
    method ProcessEvents(expired: bool, env: Schedule) returns (acquired: bool, batch: seq<Event>)
      requires Valid() && model.sys.rx.Idle? && !stopRequested && running
      modifies this, notifier
      ensures Valid() && old(trace) <= trace && model.phase == old(model.phase) && model.sys.rx.Idle?
      ensures waits == old(waits) + [Wait(old(notifier.notify), acquired)]
      ensures acquired == (!expired && old(notifier.notify) > 0)
      ensures Passes(trace) == old(Passes(trace)) + if acquired then 1 else 0
      ensures model.sys.delivered == old(model.sys.delivered) + batch && |batch| <= 10
      ensures !acquired ==> trace == old(trace) + [Timeout] && batch == []
      ensures stopRequested <==> Exit in batch
      ensures running == old(running) && entered == old(entered) && closing == old(closing)
    {
      hide EventLoop.Next, EventLoop.Enabled, EventLoop.Run, EventLoop.Valid, Waits, History, Agrees;
      batch := [];
      acquired := AcquireStep(expired);
      if !acquired {
        return;
      }
      batch := TakeAndDispatch(env);
    }

    /** A pass from the permit on. */
    method TakeAndDispatch(env: Schedule) returns (batch: seq<Event>)
      requires Valid() && model.sys.rx.Holding? && !stopRequested
      modifies this, notifier
      ensures Valid() && old(trace) <= trace && model.phase == old(model.phase) && model.sys.rx.Idle?
      ensures waits == old(waits) && Passes(trace) == old(Passes(trace)) + 1
      ensures model.sys.delivered == old(model.sys.delivered) + batch && |batch| <= 10
      ensures stopRequested <==> Exit in batch
      ensures running == old(running) && entered == old(entered) && closing == old(closing)
    {
      hide EventLoop.Next, EventLoop.Enabled, EventLoop.Run, EventLoop.Valid, Waits, History, Agrees;
      Interfere(At(env, 0));
      var leftInQueue;
      batch, leftInQueue := TakeStep();
      if |batch| == 0 {
        return;
      }
      DispatchBatch(batch, leftInQueue, env);
      Interfere(At(env, |batch| + 1));
      ghost var to := EndPassStep(leftInQueue);
    }

    /** The dispatch loop: it does not stop at an Exit. */
    method DispatchBatch(batch: seq<Event>, leftInQueue: nat, env: Schedule)
      requires Valid() && model.sys.rx == C.Passing(batch, leftInQueue) && !stopRequested
      modifies this, notifier
      ensures Valid() && old(trace) <= trace && model.phase == old(model.phase)
      ensures model.sys.rx == C.Passing([], leftInQueue)
      ensures model.sys.delivered == old(model.sys.delivered) + batch
      ensures Passes(trace) == old(Passes(trace)) && (stopRequested <==> Exit in batch) && waits == old(waits)
      ensures running == old(running) && entered == old(entered) && closing == old(closing)
    {
      hide EventLoop.Next, EventLoop.Enabled, EventLoop.Run, EventLoop.Valid, Waits, History, Agrees;
      var i := 0;
      while i < |batch|
        invariant i <= |batch| && Valid() && old(trace) <= trace && model.phase == old(model.phase)
        invariant model.sys.rx == C.Passing(batch[i..], leftInQueue)
        invariant model.sys.delivered == old(model.sys.delivered) + batch[..i]
        invariant Passes(trace) == old(Passes(trace)) && (stopRequested <==> Exit in batch[..i])
        invariant waits == old(waits)
        invariant running == old(running) && entered == old(entered) && closing == old(closing)
      {
        DispatchNext(batch[i], At(env, i + 1));
        NextOf(old(model.sys.delivered), batch, i, Exit);
        i := i + 1;
      }
    }

    /** One round of the dispatch loop, after other threads have moved. */
    method DispatchNext(e: Event, env: seq<Act>)
      requires Valid() && C.Enabled(model.sys, C.Deliver) && e == model.sys.rx.rest[0]
      modifies this, notifier
      ensures Valid() && old(trace) <= trace && model.phase == old(model.phase)
      ensures model.sys.rx == C.Passing(old(model.sys.rx.rest)[1..], old(model.sys.rx.left))
      ensures model.sys.delivered == old(model.sys.delivered) + [e]
      ensures Passes(trace) == old(Passes(trace)) && stopRequested == (old(stopRequested) || e == Exit)
      ensures waits == old(waits)
      ensures running == old(running) && entered == old(entered) && closing == old(closing)
    {
      hide EventLoop.Next, EventLoop.Enabled, EventLoop.Run, EventLoop.Valid, Waits, History, Agrees;
      Interfere(env);
      ghost var t := trace;
      ghost var to := DispatchStep(e);
      assert trace[..|t|] == t;
    }

    /** `Execute`, for as many passes as the schedule has: loop until the stop token says stop, then destroy the
      receiver. `batches` are the batches of the passes made: no batch is taken after one that held an Exit. */
    method Execute(passes: seq<Pass>) returns (finished: bool, batches: seq<seq<Event>>)
      requires Valid() && model.sys.rx.Idle? && !stopRequested && running
      modifies this, notifier
      ensures Valid() && old(trace) <= trace && model.phase == old(model.phase)
      ensures finished == stopRequested && (if finished then model.sys.rx.Dropped? else model.sys.rx.Idle?)
      ensures model.sys.delivered == old(model.sys.delivered) + Flat(batches)
      ensures finished <==> |batches| > 0 && Exit in batches[|batches| - 1]
      ensures forall i :: 0 <= i < |batches| - 1 ==> Exit !in batches[i]
      ensures |batches| <= |passes| && (!finished ==> |batches| == |passes|)
      ensures |waits| == |old(waits)| + |batches| && forall i :: |old(waits)| <= i < |waits| ==>
        waits[i].acquired == (!passes[i - |old(waits)|].expired && waits[i].permits > 0)
      ensures Passes(trace) <= old(Passes(trace)) + |batches|
      ensures running == old(running) && entered == old(entered) && closing == old(closing)
    {
      hide EventLoop.Next, EventLoop.Enabled, EventLoop.Run, EventLoop.Valid, Waits, History, Agrees;
      batches := PassUntilStop(passes);
      finished := stopRequested;
      if finished {
        ghost var t := trace;
        LeaveStep();
        assert trace[..|t|] == t;
      }
    }

    /** The loop of `Execute`. */
    method PassUntilStop(passes: seq<Pass>) returns (batches: seq<seq<Event>>)
      requires Valid() && model.sys.rx.Idle? && !stopRequested && running
      modifies this, notifier
      ensures Valid() && old(trace) <= trace && model.phase == old(model.phase) && model.sys.rx.Idle?
      ensures WaitedFor(old(waits), waits, passes, |batches|)
      ensures model.sys.delivered == old(model.sys.delivered) + Flat(batches) && StopsAtExit(batches, stopRequested)
      ensures |batches| <= |passes| && (!stopRequested ==> |batches| == |passes|)
      ensures Passes(trace) <= old(Passes(trace)) + |batches|
      ensures running == old(running) && entered == old(entered) && closing == old(closing)
    {
      batches := [];
      assert StopsAtExit(batches, stopRequested) && WaitedFor(waits, waits, passes, 0);
      hide EventLoop.Next, EventLoop.Enabled, EventLoop.Run, EventLoop.Valid, Waits, History, Agrees;
      hide StopsAtExit, Passes, WaitedFor;
      while !stopRequested && |batches| < |passes|
        invariant |batches| <= |passes| && Valid() && old(trace) <= trace && model.phase == old(model.phase)
        invariant model.sys.rx.Idle? && Passes(trace) <= old(Passes(trace)) + |batches|
        invariant model.sys.delivered == old(model.sys.delivered) + Flat(batches)
        invariant StopsAtExit(batches, stopRequested) && WaitedFor(old(waits), waits, passes, |batches|)
        invariant running == old(running) && entered == old(entered) && closing == old(closing)
      {
        ghost var before, permits := waits, notifier.notify;
        var acquired, batch := ProcessEvents(passes[|batches|].expired, passes[|batches|].env);
        WaitedOnce(old(waits), before, passes, |batches|, Wait(permits, acquired));
        FlatSnoc(old(model.sys.delivered), batches, batch);
        StopsAtExitOn(batches, batch);
        batches := batches + [batch];
      }
    }

    method LeaveStep()
      requires Valid() && model.sys.rx.Idle? && stopRequested && running
      modifies `trace, `model, `waits, notifier
      ensures Valid() && Did(Leave) && model.sys.rx.Dropped? && model.phase == old(model.phase)
      ensures model.sys.delivered == old(model.sys.delivered) && Passes(trace) == old(Passes(trace))
      ensures waits == old(waits) && notifier.rxDisconnected
    {
      hide EventLoop.Next, EventLoop.Enabled, EventLoop.Run, EventLoop.Valid, Waits;
      LeaveEffect(model);
      notifier.Disconnect();
      Record(Leave);
    }

    /** `Enter` is past the start latch. */
    method StartRunning()
      requires Valid() && !entered
      modifies `entered, `running
      ensures Valid() && entered && running
    {
      entered, running := true, true;
    }

    /** The final loop of `Enter` reaches the timer `id`. */
    method CloseStep(id: TimerId)
      requires Valid() && model.phase.Closing? && id in model.phase.todo
      modifies `stopsSent, `trace, `model, `waits
      ensures Valid() && Did(CloseTimer(id)) && model.phase == Closing(old(model.phase.todo) - {id})
      ensures stopsSent == old(stopsSent) + [id] && model.sys.rx == old(model.sys.rx)
      ensures model.sys.delivered == old(model.sys.delivered)
    {
      hide EventLoop.Next, EventLoop.Enabled, EventLoop.Run, EventLoop.Valid, Waits;
      CloseEffect(model);
      stopsSent := stopsSent + [id];
      Record(CloseTimer(id));
    }

    method BeginCloseStep()
      requires Valid() && !closing && model.sys.rx.Dropped?
      modifies `closing, `trace, `model, `waits
      ensures Valid() && Did(BeginClose) && closing && model.phase == Closing(timers.Keys)
      ensures model.sys == old(model.sys)
    {
      hide EventLoop.Next, EventLoop.Enabled, EventLoop.Run, EventLoop.Valid, Waits;
      CloseEffect(model);
      closing := true;
      Record(BeginClose);
    }

    method EndStep()
      requires Valid() && model.phase == Closing({})
      modifies `running, `trace, `model, `waits
      ensures Valid() && Did(End) && model.phase.Ended? && !running && model.sys == old(model.sys)
      ensures multiset(stopsSent) == multiset(addsSent) == multiset(issued)
    {
      hide EventLoop.Next, EventLoop.Enabled, EventLoop.Run, EventLoop.Valid, Waits;
      CloseEffect(model);
      running := false;
      Record(End);
      LoopTimers.ExactlyOneStopPerTimer(trace);
    }

    /** `Enter` after the start latch: `Starting`, the loop, `Stopping`, and a stop request for every timer that is left.
      It makes the passes `Execute` makes, and reports running exactly until it returns finished; then every timer this
      thread ever started has had exactly one stop request. */
    method Enter(starting: seq<Act>, passes: seq<Pass>, leaving: seq<Act>)
      returns (finished: bool, batches: seq<seq<Event>>)
      requires Valid() && !entered && !stopRequested && !closing
      modifies this, notifier
      ensures Valid() && old(trace) <= trace && finished == stopRequested && entered && running == !finished
      ensures model.sys.delivered == old(model.sys.delivered) + Flat(batches)
      ensures finished <==> |batches| > 0 && Exit in batches[|batches| - 1]
      ensures forall i :: 0 <= i < |batches| - 1 ==> Exit !in batches[i]
      ensures |batches| <= |passes| && (!finished ==> |batches| == |passes|)
      ensures |waits| == |old(waits)| + |batches| && forall i :: |old(waits)| <= i < |waits| ==>
        waits[i].acquired == (!passes[i - |old(waits)|].expired && waits[i].permits > 0)
      ensures finished ==> model.phase.Ended? && multiset(stopsSent) == multiset(addsSent) == multiset(issued)
    {
      hide EventLoop.Next, EventLoop.Enabled, EventLoop.Run, EventLoop.Valid, Waits, History, Agrees;
      StartRunning();
      Interfere(starting);
      finished, batches := Execute(passes);
      if finished {
        Finish(leaving);
      }
    }

    /** The end of `Enter`: `Stopping`, and the loop over the timers left. */
    method Finish(leaving: seq<Act>)
      requires Valid() && model.sys.rx.Dropped? && !closing && stopRequested && entered
      modifies this, notifier
      ensures Valid() && old(trace) <= trace && stopRequested && entered && !running && waits == old(waits)
      ensures model.sys.delivered == old(model.sys.delivered)
      ensures model.phase.Ended? && multiset(stopsSent) == multiset(addsSent) == multiset(issued)
    {
      hide EventLoop.Next, EventLoop.Enabled, EventLoop.Run, EventLoop.Valid, Waits, History, Agrees;
      Interfere(leaving);
      BeginCloseStep();
      StopRemainingTimers();
      EndStep();
    }

    /** The loop over `m_timers`, whose order is not specified. */
    method StopRemainingTimers()
      requires Valid() && closing && model.phase == Closing(timers.Keys)
      modifies `stopsSent, `trace, `model, `waits
      ensures Valid() && old(trace) <= trace && model.phase == Closing({})
      ensures model.sys.rx == old(model.sys.rx) && waits == old(waits) && model.sys.delivered == old(model.sys.delivered)
    {
      hide EventLoop.Next, EventLoop.Enabled, EventLoop.Run, EventLoop.Valid, Waits;
      var todo := timers.Keys;
      while todo != {}
        invariant Valid() && old(trace) <= trace && model.phase == Closing(todo)
        invariant model.sys.rx == old(model.sys.rx) && waits == old(waits)
        invariant model.sys.delivered == old(model.sys.delivered)
        decreases todo
      {
        Inhabited(todo);
        var id :| id in todo;
        CloseStep(id);
        todo := todo - {id};
      }
    }
  }
}
