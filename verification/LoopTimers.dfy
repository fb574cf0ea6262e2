/** The timers of one thread over whole runs of its event loop: who gets a callback, who gets a stop request, and
  where every expiry ends up. */
module LoopTimers {
  import opened Events
  import opened Channel
  import C = ChannelRuns
  import opened EventLoop

  function Times<T(==)>(q: seq<T>, x: T): nat {
    multiset(q)[x]
  }

  lemma TimesSnoc<T>(q: seq<T>, v: T, x: T)
    ensures Times(q + [v], x) == Times(q, x) + if v == x then 1 else 0
  {
  }

  // ---- exactly one stop request per timer ----

  /** Timers whose stop request is still to come. */
  function Unstopped(s: Loop): set<TimerId> {
    match s.phase
    case Running => s.timers
    case Closing(todo) => todo
    case Ended => {}
  }

  ghost predicate StopsInv(s: Loop) {
    && Unstopped(s) <= s.timers <= s.started
    && forall id :: Times(s.stopRequests, id) == if id in s.started && id !in Unstopped(s) then 1 else 0
  }

  lemma StepKeepsStopsInv(s: Loop, a: Act)
    requires StopsInv(s) && Enabled(s, a)
    ensures StopsInv(Next(s, a))
  {
    hide Times;
    if a.StopTimer? || a.CloseTimer? {
      forall id { TimesSnoc(s.stopRequests, a.id, id); }
    }
  }

  lemma {:induction false} RunKeepsStopsInv(s: Loop, acts: seq<Act>)
    requires StopsInv(s) && Valid(s, acts)
    ensures StopsInv(Run(s, acts))
  {
    if |acts| == 0 {
    } else {
      var n := |acts| - 1;
      RunKeepsStopsInv(s, acts[..n]);
      StepKeepsStopsInv(Run(s, acts[..n]), acts[n]);
    }
  }

  /** When `Enter` has returned, every timer the thread ever started has had exactly one stop request, from `StopTimer`
    or from the final loop, and nothing else has had any. */
  lemma ExactlyOneStopPerTimer(acts: seq<Act>)
    requires Valid(Init(), acts)
    ensures var s := Run(Init(), acts);
      && (s.phase.Ended? ==> multiset(s.stopRequests) == multiset(s.started))
      && (forall id :: Times(s.stopRequests, id) <= 1)
  {
    RunKeepsStopsInv(Init(), acts);
    var s := Run(Init(), acts);
    if s.phase.Ended? {
      forall id ensures multiset(s.stopRequests)[id] == multiset(s.started)[id] {
        assert Times(s.stopRequests, id) == if id in s.started then 1 else 0;
      }
    }
  }

  // ---- silence after StopTimer ----

  lemma StepIsSilent(s: Loop, a: Act, id: TimerId)
    requires Enabled(s, a) && id in s.started && id !in s.timers
    ensures var t := Next(s, a); id in t.started && id !in t.timers && Times(t.callbacks, id) == Times(s.callbacks, id)
  {
  }

  /** Once a timer has been stopped its callback never runs again, whatever stale expiries are queued or still to
    come: ids are not reissued. */
  lemma {:induction false} SilentAfterStopTimer(s: Loop, acts: seq<Act>, id: TimerId)
    requires Valid(s, acts) && id in s.started && id !in s.timers
    ensures var t := Run(s, acts); id in t.started && id !in t.timers && Times(t.callbacks, id) == Times(s.callbacks, id)
  {
    if |acts| == 0 {
    } else {
      var n := |acts| - 1;
      SilentAfterStopTimer(s, acts[..n], id);
      StepIsSilent(Run(s, acts[..n]), acts[n], id);
    }
  }

  // ---- where expiries end up ----

  /** The expiry the timer thread is about to put in the queue, if it is one for `id`. */
  function Sending(s: C.Sys<Event>, id: TimerId): nat {
    if TIMER in s.senders && s.senders[TIMER] == C.WantsSend(Expired(id)) then 1 else 0
  }

  ghost predicate SentInv(s: Loop, id: TimerId) {
    var k, e := s.sys.core, Expired(id);
    Times(s.expiries, id) == Sending(s.sys, id) + Times(k.log, e) + Times(k.dropped, e)
  }

  ghost predicate HandledInv(s: Loop, id: TimerId) {
    Times(s.callbacks, id) + Times(s.unknown, id) == Times(s.sys.delivered, Expired(id))
  }

  lemma SectionKeepsSentInv(s: Loop, a: Act, id: TimerId)
    requires SendersInv(s) && SentInv(s, id) && Enabled(s, a) && a.Section?
    ensures SentInv(Next(s, a), id)
  {
  }

  lemma StepKeepsSentInv(s: Loop, a: Act, id: TimerId)
    requires SendersInv(s) && SentInv(s, id) && Enabled(s, a)
    ensures SentInv(Next(s, a), id)
  {
    hide Times;
    if a.Section? {
      SectionKeepsSentInv(s, a, id);
    } else {
      var k, k' := s.sys.core, Next(s, a).sys.core;
      assert k'.log == k.log && k'.dropped == k.dropped;
      if a.Expire? { TimesSnoc(s.expiries, a.id, id); }
    }
  }

  lemma StepKeepsHandledInv(s: Loop, a: Act, id: TimerId)
    requires HandledInv(s, id) && Enabled(s, a)
    ensures HandledInv(Next(s, a), id)
  {
    hide Times;
    if a.Dispatch? {
      var e := s.sys.rx.rest[0];
      assert Next(s, a).sys.delivered == s.sys.delivered + [e];
      TimesSnoc(s.sys.delivered, e, Expired(id));
      if e.Expired? {
        TimesSnoc(s.callbacks, e.id, id);
        TimesSnoc(s.unknown, e.id, id);
      }
    } else {
      assert Next(s, a).sys.delivered == s.sys.delivered;
    }
  }

  lemma {:induction false} RunKeepsExpiryInvs(s: Loop, acts: seq<Act>, id: TimerId)
    requires Inv(s) && SentInv(s, id) && HandledInv(s, id) && Valid(s, acts)
    ensures var t := Run(s, acts); Inv(t) && SentInv(t, id) && HandledInv(t, id)
  {
    hide EventLoop.Inv, SentInv, HandledInv;
    if |acts| == 0 {
    } else {
      var n := |acts| - 1;
      var t := Run(s, acts[..n]);
      RunKeepsExpiryInvs(s, acts[..n], id);
      KeepsExpiryInvs(t, acts[n], id);
    }
  }

  lemma KeepsExpiryInvs(s: Loop, a: Act, id: TimerId)
    requires Inv(s) && SentInv(s, id) && HandledInv(s, id) && Enabled(s, a)
    ensures var t := Next(s, a); Inv(t) && SentInv(t, id) && HandledInv(t, id)
  {
    StepKeepsInv(s, a);
    StepKeepsSentInv(s, a, id);
    StepKeepsHandledInv(s, a, id);
  }

  /** Where the expiries of `id` are that this thread's channel was ever offered. */
  ghost predicate Conserved(s: Loop, id: TimerId) {
    var k, e := s.sys.core, Expired(id);
    && |k.log| == |k.marks|
    && Times(s.expiries, id) ==
         Times(s.callbacks, id) + Times(s.unknown, id)
         + Times(C.InFlight(s.sys), e) + Times(k.queue, e)
         + Times(Discarded(k.log, k.marks), e) + Times(k.dropped, e)
         + Sending(s.sys, id)
  }

  lemma ConservedNow(s: Loop, id: TimerId)
    requires Inv(s) && SentInv(s, id) && HandledInv(s, id)
    ensures Conserved(s, id)
  {
    var k := s.sys.core;
    KeptAndDiscarded(k.log, k.marks);
    assert multiset(C.Stream(s.sys)) ==
      multiset(s.sys.delivered) + multiset(C.InFlight(s.sys)) + multiset(k.queue);
  }

  /** No expiry is lost or duplicated: in every reachable state, every expiry of `id` that the timer thread sent ran a
    callback, was discarded as unknown, is in the batch, is queued, was flushed, was dropped on disconnect, or is being
    sent. */
  lemma ExpiriesConserved(acts: seq<Act>, id: TimerId)
    requires Valid(Init(), acts)
    ensures var s := Run(Init(), acts);
      var k, e := s.sys.core, Expired(id);
      && |k.log| == |k.marks|
      && multiset(s.expiries)[id] ==
           multiset(s.callbacks)[id] + multiset(s.unknown)[id]
           + multiset(C.InFlight(s.sys))[e] + multiset(k.queue)[e]
           + multiset(Discarded(k.log, k.marks))[e] + multiset(k.dropped)[e]
           + if TIMER in s.sys.senders && s.sys.senders[TIMER] == C.WantsSend(e) then 1 else 0
  {
    assert Inv(Init());
    RunKeepsExpiryInvs(Init(), acts, id);
    ConservedNow(Run(Init(), acts), id);
  }
}
