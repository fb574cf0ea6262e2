/** Threads, the request channel, the timer registry and the kernel together, over whole runs: any number of threads
  start, update and stop timers while requests queue up and completions arrive in any order. */
module TimerWorld {
  import opened Events
  import opened Channel
  import C = ChannelRuns
  import E = EventLoop
  import T = LoopTimers
  import R = Registry

  /** `nextId` is the source of timer and request ids; `owner` says, as history, which thread started a timer. In the
    request channel a thread's own number is its caller number: it makes one request at a time. */
  datatype World = World(
    regs: R.Sys,
    req: C.Sys<Request>,
    threads: map<nat, E.Loop>,
    nextId: TimerId,
    owner: map<TimerId, nat>)

  datatype Act =
    | InThread(t: nat, act: E.Act)
    | Start(t: nat)
    | Stop(t: nat, id: TimerId)
    | Close(t: nat, id: TimerId)
    | Update(t: nat, target: TimerId)
    | OnRequests(chan: C.Act<Request>)
    | Process(ok: bool)
    | Completion(u: nat, res: int)

  function Init(tids: set<nat>): World {
    World(R.Init(), C.Init(), map t | t in tids :: E.Init(), 1, map[])
  }

  /** The request channel is never flushed, and `tryReceiveMany` takes everything there is. */
  predicate PlainChannelAct(q: seq<Request>, a: C.Act<Request>) {
    !a.BeginSend? && !a.BeginFlush? && !a.Deliver? && (a.Take? ==> a.max > |q|)
  }

  predicate TimerAct(a: E.Act) {
    a.Expire? || a.StartTimer? || a.StopTimer? || a.CloseTimer?
  }

  predicate CanAsk(w: World, t: nat) {
    t in w.threads && t !in w.req.senders
  }

  predicate Enabled(w: World, a: Act) {
    match a
    case InThread(t, act) => t in w.threads && !TimerAct(act) && E.Enabled(w.threads[t], act)
    case Start(t) => CanAsk(w, t) && E.Enabled(w.threads[t], E.StartTimer(w.nextId))
    case Stop(t, id) => CanAsk(w, t) && E.Enabled(w.threads[t], E.StopTimer(id))
    case Close(t, id) => CanAsk(w, t) && E.Enabled(w.threads[t], E.CloseTimer(id))
    case Update(t, _) => CanAsk(w, t)
    case OnRequests(chan) => C.Enabled(w.req, chan) && PlainChannelAct(w.req.core.queue, chan)
    case Process(ok) => C.Enabled(w.req, C.Deliver) && R.Enabled(w.regs, R.RequestAct(w.req.rx.rest[0], ok))
    case Completion(u, res) =>
      R.Enabled(w.regs, R.Cqe(u, res)) &&
      (R.Sends(w.regs.maps, u, res) ==>
        var id := w.regs.maps.pending[u].timerId;
        var t := w.regs.maps.txs[id];
        t in w.threads && E.Enabled(w.threads[t], E.Expire(id)))
  }

  function Ask(w: World, t: nat, e: Request): World
    requires CanAsk(w, t)
  {
    w.(req := C.Next(w.req, C.BeginSend(t, e)), nextId := w.nextId + 1)
  }

  function Move(w: World, t: nat, act: E.Act): World
    requires t in w.threads && E.Enabled(w.threads[t], act)
  {
    w.(threads := w.threads[t := E.Next(w.threads[t], act)])
  }

  ghost function Next(w: World, a: Act): World
    requires Enabled(w, a)
  {
    match a
    case InThread(t, act) => Move(w, t, act)
    case Start(t) =>
      Ask(Move(w, t, E.StartTimer(w.nextId)), t, AddReq(w.nextId, t)).(owner := w.owner[w.nextId := t])
    case Stop(t, id) =>
      var v := Move(w, t, E.StopTimer(id));
      if id in w.threads[t].timers then Ask(v, t, StopReq(w.nextId, id)) else v
    case Close(t, id) => Ask(Move(w, t, E.CloseTimer(id)), t, StopReq(w.nextId, id))
    case Update(t, target) => Ask(w, t, UpdateReq(w.nextId, target))
    case OnRequests(chan) => w.(req := C.Next(w.req, chan))
    case Process(ok) =>
      w.(regs := R.Next(w.regs, R.RequestAct(w.req.rx.rest[0], ok)), req := C.Next(w.req, C.Deliver))
    case Completion(u, res) =>
      var v := w.(regs := R.Next(w.regs, R.Cqe(u, res)));
      if R.Sends(w.regs.maps, u, res) then
        var id := w.regs.maps.pending[u].timerId;
        Move(v, w.regs.maps.txs[id], E.Expire(id))
      else v
  }

  ghost predicate Valid(w: World, acts: seq<Act>)
    decreases |acts|, 0
  {
    |acts| == 0 ||
    var n := |acts| - 1;
    Valid(w, acts[..n]) && Enabled(Run(w, acts[..n]), acts[n])
  }

  ghost function Run(w: World, acts: seq<Act>): World
    requires Valid(w, acts)
    decreases |acts|, 1
  {
    if |acts| == 0 then w else
    var n := |acts| - 1;
    Next(Run(w, acts[..n]), acts[n])
  }

  // ---- each part keeps its own invariant ----

  ghost predicate LoopInv(s: E.Loop) {
    E.Inv(s) && T.StopsInv(s) && forall id :: T.SentInv(s, id) && T.HandledInv(s, id)
  }

  lemma LoopStep(s: E.Loop, a: E.Act)
    requires LoopInv(s) && E.Enabled(s, a)
    ensures LoopInv(E.Next(s, a))
  {
    hide E.Inv, E.Next, E.Enabled, T.SentInv, T.HandledInv, T.StopsInv;
    T.StepKeepsStopsInv(s, a);
    E.StepKeepsInv(s, a);
    forall id { T.KeepsExpiryInvs(s, a, id); }
  }

  ghost predicate ThreadsInv(w: World) {
    forall t :: t in w.threads ==> LoopInv(w.threads[t])
  }

  lemma StepKeepsThreadsInv(w: World, a: Act)
    requires ThreadsInv(w) && Enabled(w, a)
    ensures ThreadsInv(Next(w, a))
  {
    hide LoopInv, E.Next, E.Enabled, R.Next, R.Enabled;
    match a {
      case InThread(t, act) => LoopStep(w.threads[t], act);
      case Start(t) => LoopStep(w.threads[t], E.StartTimer(w.nextId));
      case Stop(t, id) => LoopStep(w.threads[t], E.StopTimer(id));
      case Close(t, id) => LoopStep(w.threads[t], E.CloseTimer(id));
      case Completion(u, res) =>
        if R.Sends(w.regs.maps, u, res) {
          var id := w.regs.maps.pending[u].timerId;
          LoopStep(w.threads[w.regs.maps.txs[id]], E.Expire(id));
        }
      case _ =>
    }
  }

  lemma StepKeepsRegistryInv(w: World, a: Act)
    requires R.Inv(w.regs) && Enabled(w, a)
    ensures R.Inv(Next(w, a).regs)
  {
    hide E.Next, E.Enabled, R.Inv, R.Next, R.Enabled;
    match a {
      case Process(ok) => R.StepKeepsInv(w.regs, R.RequestAct(w.req.rx.rest[0], ok));
      case Completion(u, res) => R.StepKeepsInv(w.regs, R.Cqe(u, res));
      case _ =>
    }
  }

  /** The request channel loses nothing: no flush ever runs on it. */
  ghost predicate RequestsInv(w: World) {
    && C.Inv(w.req)
    && (forall i :: 0 <= i < |w.req.core.marks| ==> !w.req.core.marks[i])
    && (forall c :: c in w.req.senders ==> !w.req.senders[c].WantsFlush?)
    && (w.req.core.dropped != [] ==> w.req.core.disconnected)
  }

  /** The step of the request channel, if a step of the world has one. */
  ghost function RequestStep(w: World, a: Act): seq<C.Act<Request>>
    requires Enabled(w, a)
  {
    match a
    case Start(t) => [C.BeginSend(t, AddReq(w.nextId, t))]
    case Stop(t, id) => if id in w.threads[t].timers then [C.BeginSend(t, StopReq(w.nextId, id))] else []
    case Close(t, id) => [C.BeginSend(t, StopReq(w.nextId, id))]
    case Update(t, target) => [C.BeginSend(t, UpdateReq(w.nextId, target))]
    case OnRequests(chan) => [chan]
    case Process(_) => [C.Deliver]
    case _ => []
  }

  lemma RequestStepIs(w: World, a: Act)
    requires Enabled(w, a)
    ensures var r := RequestStep(w, a);
      if |r| == 0 then Next(w, a).req == w.req
      else C.Enabled(w.req, r[0]) && Next(w, a).req == C.Next(w.req, r[0]) && C.Positive(r[0]) && !r[0].BeginFlush?
    ensures a.OnRequests? ==> !RequestStep(w, a)[0].BeginSend?
  {
  }

  lemma StepKeepsRequestsInv(w: World, a: Act)
    requires RequestsInv(w) && Enabled(w, a)
    ensures RequestsInv(Next(w, a))
  {
    hide Next, Enabled, C.Inv;
    RequestStepIs(w, a);
    if |RequestStep(w, a)| > 0 {
      C.StepKeepsInv(w.req, RequestStep(w, a)[0]);
    }
  }

  lemma {:induction false} AllKept(log: seq<Request>, marks: seq<bool>)
    requires |log| == |marks| && forall i :: 0 <= i < |marks| ==> !marks[i]
    ensures Kept(log, marks) == log
  {
    if |log| == 0 {
    } else {
      AllKept(log[..|log| - 1], marks[..|log| - 1]);
    }
  }

  /** Requests are handled in the order in which they were accepted, and none is lost. */
  lemma RequestsInOrder(w: World)
    requires RequestsInv(w)
    ensures w.req.core.log == w.req.delivered + C.InFlight(w.req) + w.req.core.queue
  {
    AllKept(w.req.core.log, w.req.core.marks);
  }

  // ---- who owns which id ----

  lemma LoopIds(s: E.Loop, a: E.Act)
    requires E.Enabled(s, a)
    ensures E.Next(s, a).started == s.started + (if a.StartTimer? then {a.id} else {})
    ensures E.Next(s, a).expiries == s.expiries + (if a.Expire? then [a.id] else [])
  {
  }

  /** Ids are started by one thread, and the owner map agrees with the threads. */
  ghost predicate OwnersInv(w: World) {
    && (forall id :: id in w.owner ==> id < w.nextId && w.owner[id] in w.threads && id in w.threads[w.owner[id]].started)
    && (forall t, id :: t in w.threads && id in w.threads[t].started ==> id in w.owner && w.owner[id] == t)
  }

  /** The step of a thread, if a step of the world has one. */
  ghost function ThreadStep(w: World, a: Act): seq<(nat, E.Act)>
    requires Enabled(w, a)
  {
    match a
    case InThread(t, act) => [(t, act)]
    case Start(t) => [(t, E.StartTimer(w.nextId))]
    case Stop(t, id) => [(t, E.StopTimer(id))]
    case Close(t, id) => [(t, E.CloseTimer(id))]
    case Completion(u, res) =>
      if R.Sends(w.regs.maps, u, res) then
        var id := w.regs.maps.pending[u].timerId;
        [(w.regs.maps.txs[id], E.Expire(id))]
      else []
    case _ => []
  }

  lemma ThreadStepIs(w: World, a: Act)
    requires Enabled(w, a)
    ensures var r := ThreadStep(w, a);
      if |r| == 0 then Next(w, a).threads == w.threads
      else var (t, act) := r[0];
        && t in w.threads && E.Enabled(w.threads[t], act)
        && Next(w, a).threads == w.threads[t := E.Next(w.threads[t], act)]
        && (act.StartTimer? <==> a.Start?) && (act.Expire? <==> a.Completion?)
    ensures Next(w, a).owner == if a.Start? then w.owner[w.nextId := a.t] else w.owner
    ensures w.nextId <= Next(w, a).nextId && (a.Start? ==> Next(w, a).nextId == w.nextId + 1)
  {
  }

  lemma StartedAfter(w: World, a: Act)
    requires Enabled(w, a)
    ensures Next(w, a).threads.Keys == w.threads.Keys
    ensures forall t :: t in w.threads ==>
      Next(w, a).threads[t].started == w.threads[t].started + (if a == Start(t) then {w.nextId} else {}) &&
      Next(w, a).threads[t].expiries ==
        w.threads[t].expiries +
        (if a.Completion? && R.Sends(w.regs.maps, a.u, a.res) && w.regs.maps.txs[w.regs.maps.pending[a.u].timerId] == t
         then [w.regs.maps.pending[a.u].timerId] else [])
  {
    hide Next, Enabled, E.Next, E.Enabled;
    ThreadStepIs(w, a);
    var r := ThreadStep(w, a);
    if |r| > 0 {
      LoopIds(w.threads[r[0].0], r[0].1);
    }
  }

  lemma StepKeepsOwnersInv(w: World, a: Act)
    requires OwnersInv(w) && Enabled(w, a)
    ensures OwnersInv(Next(w, a))
  {
    hide Next, Enabled, ThreadStep, OwnersInv;
    ThreadStepIs(w, a);
    StartedAfter(w, a);
    StartIsByAThread(w, a);
    OwnersGrow(w, Next(w, a), a.Start?, if a.Start? then a.t else 0);
  }

  /** At most one thread has started one timer, and the id was new. */
  lemma OwnersGrow(w: World, v: World, starts: bool, t: nat)
    requires OwnersInv(w) && v.threads.Keys == w.threads.Keys && w.nextId <= v.nextId
    requires starts ==> t in w.threads && w.nextId < v.nextId
    requires v.owner == if starts then w.owner[w.nextId := t] else w.owner
    requires forall x :: x in w.threads ==>
      v.threads[x].started == w.threads[x].started + if starts && x == t then {w.nextId} else {}
    ensures OwnersInv(v)
  {
    forall x, id | x in v.threads && id in v.threads[x].started ensures id in v.owner && v.owner[id] == x {
      if id in w.threads[x].started {
        assert w.owner[id] == x && id != w.nextId;
      }
    }
  }

  lemma StartIsByAThread(w: World, a: Act)
    requires Enabled(w, a)
    ensures a.Start? ==> a.t in w.threads
  {
  }

  // ---- the requests that carry new ids ----

  ghost predicate AddsInv(w: World) {
    var log := w.req.core.log;
    && (forall c :: c in w.req.senders && w.req.senders[c].WantsSend? && w.req.senders[c].value.AddReq? ==>
          var e := w.req.senders[c].value;
          e.owner == c && e.id in w.owner && w.owner[e.id] == c && e.id !in R.AddsOf(log))
    && (forall i :: 0 <= i < |log| && log[i].AddReq? ==> log[i].id in w.owner && w.owner[log[i].id] == log[i].owner)
    && R.FreshAdds(log, {})
  }

  ghost predicate HandledAddsInv(w: World) {
    && w.regs.added == R.AddsOf(w.req.delivered)
    && (forall id :: id in w.regs.maps.txs ==> id in w.owner && w.owner[id] == w.regs.maps.txs[id])
  }

  /** The log and the senders after a step on the request channel. */
  lemma RequestEffect(s: C.Sys<Request>, a: C.Act<Request>)
    requires C.Enabled(s, a) && !a.BeginFlush?
    requires forall c :: c in s.senders ==> !s.senders[c].WantsFlush?
    ensures var t := C.Next(s, a);
      && t.core.log == (if a.Section? && !s.core.disconnected then s.core.log + [s.senders[a.c].value] else s.core.log)
      && t.delivered == (if a.Deliver? then s.delivered + [s.rx.rest[0]] else s.delivered)
      && (forall c :: c in t.senders && t.senders[c].WantsSend? ==>
            (c in s.senders && t.senders[c] == s.senders[c]) || (a.BeginSend? && a.c == c && t.senders[c].value == a.v))
      && (forall c :: c in s.senders && c !in t.senders ==> (a.Release? || a.Section?) && a.c == c)
  {
  }

  lemma SectionKeepsAddsInv(w: World, a: Act, c: nat)
    requires RequestsInv(w) && OwnersInv(w) && AddsInv(w) && Enabled(w, a) && a == OnRequests(C.Section(c))
    ensures AddsInv(Next(w, a))
  {
  }

  lemma StepKeepsAddsInv(w: World, a: Act)
    requires RequestsInv(w) && OwnersInv(w) && AddsInv(w) && Enabled(w, a)
    ensures AddsInv(Next(w, a))
  {
    hide Next, Enabled, ThreadStep, C.Next, C.Enabled, C.Inv, R.FreshAdds;
    RequestStepIs(w, a);
    ThreadStepIs(w, a);
    NewIdIsNew(w);
    var r, v := RequestStep(w, a), Next(w, a);
    if |r| > 0 && r[0].Section? {
      SectionKeepsAddsInv(w, a, r[0].c);
      return;
    }
    if |r| > 0 {
      RequestEffect(w.req, r[0]);
    }
    assert v.req.core.log == w.req.core.log;
    forall c | c in v.req.senders && v.req.senders[c].WantsSend? && v.req.senders[c].value.AddReq?
      ensures var e := v.req.senders[c].value;
        e.owner == c && e.id in v.owner && v.owner[e.id] == c && e.id !in R.AddsOf(w.req.core.log)
    {
      if !(c in w.req.senders && v.req.senders[c] == w.req.senders[c]) {
        assert a == Start(c) && v.req.senders[c].value == AddReq(w.nextId, c);
      }
    }
  }

  lemma NewIdIsNew(w: World)
    requires OwnersInv(w) && AddsInv(w)
    ensures w.nextId !in w.owner && w.nextId !in R.AddsOf(w.req.core.log)
  {
  }

  /** The registry after a step of the world. */
  lemma RegistryEffect(w: World, a: Act)
    requires Enabled(w, a)
    ensures var r, r' := w.regs, Next(w, a).regs;
      && (if a.Process? then
            var e := w.req.rx.rest[0];
            && r'.added == r.added + (if e.AddReq? then {e.id} else {})
            && (forall id :: id in r'.maps.txs ==>
                  (id in r.maps.txs && r'.maps.txs[id] == r.maps.txs[id]) ||
                  (e.AddReq? && id == e.id && r'.maps.txs[id] == e.owner))
          else
            && r'.added == r.added
            && (forall id :: id in r'.maps.txs ==> id in r.maps.txs && r'.maps.txs[id] == r.maps.txs[id]))
      && r'.sent == r.sent + (if a.Completion? && R.Sends(r.maps, a.u, a.res) then [r.maps.pending[a.u].timerId] else [])
  {
  }

  /** The request at the front of the batch is in the log, right after those delivered. */
  lemma FrontIsNext(w: World)
    requires RequestsInv(w) && C.Enabled(w.req, C.Deliver)
    ensures var n := |w.req.delivered|;
      n < |w.req.core.log| && w.req.core.log[n] == w.req.rx.rest[0] && w.req.core.log[..n] == w.req.delivered
  {
    hide C.Inv;
    RequestsInOrder(w);
  }

  lemma ProcessDelivers(w: World, ok: bool)
    requires Enabled(w, Process(ok))
    ensures C.Enabled(w.req, C.Deliver)
    ensures Next(w, Process(ok)).req.delivered == w.req.delivered + [w.req.rx.rest[0]]
  {
  }

  lemma DeliveredOtherwise(w: World, a: Act)
    requires Enabled(w, a) && RequestsInv(w) && !a.Process?
    ensures Next(w, a).req.delivered == w.req.delivered
  {
  }

  lemma StepKeepsHandledAddsInv(w: World, a: Act)
    requires RequestsInv(w) && OwnersInv(w) && AddsInv(w) && HandledAddsInv(w) && Enabled(w, a)
    ensures HandledAddsInv(Next(w, a))
  {
    hide Next, Enabled, ThreadStep, R.AddsOf, R.FreshAdds, RequestsInv;
    RegistryEffect(w, a);
    ThreadStepIs(w, a);
    NewIdIsNew(w);
    if a.Process? {
      ProcessDelivers(w, a.ok);
      FrontIsNext(w);
      R.AddsSnoc(w.req.delivered, w.req.rx.rest[0]);
    } else {
      DeliveredOtherwise(w, a);
    }
  }

  // ---- a stop request always finds its timer ----

  /** The Add for `id` was accepted, is being sent, or came too late because the receiver is gone. */
  ghost predicate AddAsked(w: World, id: TimerId)
    requires id in w.owner
  {
    var t := w.owner[id];
    || id in R.AddsOf(w.req.core.log)
    || w.req.core.disconnected
    || (t in w.req.senders && w.req.senders[t] == C.WantsSend(AddReq(id, t)))
  }

  ghost predicate StopsInv(w: World) {
    var log := w.req.core.log;
    && (forall id :: id in w.owner ==> AddAsked(w, id))
    && (forall c :: c in w.req.senders && w.req.senders[c].WantsSend? && w.req.senders[c].value.StopReq? ==>
          w.req.core.disconnected || w.req.senders[c].value.target in R.AddsOf(log))
    && (forall j :: 0 <= j < |log| && log[j].StopReq? ==> log[j].target in R.AddsOf(log[..j]))
  }

  lemma SectionKeepsStopsInv(w: World, a: Act, c: nat)
    requires RequestsInv(w) && AddsInv(w) && StopsInv(w) && Enabled(w, a) && a == OnRequests(C.Section(c))
    ensures StopsInv(Next(w, a))
  {
    hide E.Next, E.Enabled, R.Next, R.Enabled, R.AddsOf, R.FreshAdds, C.Inv;
    var v := Next(w, a);
    var log, log' := w.req.core.log, v.req.core.log;
    if !w.req.core.disconnected {
      var e := w.req.senders[c].value;
      R.AddsSnoc(log, e);
      assert log' == log + [e] && log'[..|log|] == log;
      forall j | 0 <= j < |log'| && log'[j].StopReq? ensures log'[j].target in R.AddsOf(log'[..j]) {
        if j < |log| {
          assert log'[..j] == log[..j];
        }
      }
      forall id | id in v.owner ensures AddAsked(v, id) {
        assert AddAsked(w, id);
      }
    }
  }

  /** What a stop or an update puts into the channel, and who is still sending. */
  lemma AskEffect(w: World, a: Act)
    requires Enabled(w, a) && RequestsInv(w)
    ensures var q, q' := w.req, Next(w, a).req;
      && (q.core.disconnected ==> q'.core.disconnected)
      && (forall c :: c in q'.senders && q'.senders[c].WantsSend? && q'.senders[c].value.StopReq? ==>
            (c in q.senders && q'.senders[c] == q.senders[c]) ||
            (c !in q.senders && c in w.threads && q'.senders[c].value.target in w.threads[c].timers) ||
            (c !in q.senders && c in w.threads && w.threads[c].phase.Closing? &&
             q'.senders[c].value.target in w.threads[c].phase.todo))
      && (a.Start? ==> a.t in q'.senders && q'.senders[a.t] == C.WantsSend(AddReq(w.nextId, a.t)))
      && ((a.OnRequests? && a.chan.Section?) ||
          (q'.core.log == q.core.log &&
           forall c :: c in q.senders && q.senders[c].WantsSend? ==> c in q'.senders && q'.senders[c] == q.senders[c]))
  {
    hide E.Next, R.Next, R.Enabled, C.Inv;
  }

  lemma StepKeepsStopsInv(w: World, a: Act)
    requires ThreadsInv(w) && RequestsInv(w) && OwnersInv(w) && AddsInv(w) && StopsInv(w) && Enabled(w, a)
    ensures StopsInv(Next(w, a))
  {
    hide Next, Enabled, ThreadStep, R.AddsOf, R.FreshAdds, RequestsInv, AddsInv;
    if a.OnRequests? && a.chan.Section? {
      SectionKeepsStopsInv(w, a, a.chan.c);
    } else {
      OtherKeepsStopsInv(w, a);
    }
  }

  lemma OtherKeepsStopsInv(w: World, a: Act)
    requires ThreadsInv(w) && RequestsInv(w) && OwnersInv(w) && StopsInv(w) && Enabled(w, a)
    requires !(a.OnRequests? && a.chan.Section?)
    ensures StopsInv(Next(w, a))
  {
    hide Next, Enabled, ThreadStep, R.AddsOf, RequestsInv, ThreadsInv;
    var v := Next(w, a);
    AskEffect(w, a);
    ThreadStepIs(w, a);
    forall id | id in v.owner ensures AddAsked(v, id) {
      if id in w.owner && !(a.Start? && id == w.nextId) {
        assert AddAsked(w, id);
      }
    }
    forall c | c in v.req.senders && v.req.senders[c].WantsSend? && v.req.senders[c].value.StopReq?
      ensures v.req.core.disconnected || v.req.senders[c].value.target in R.AddsOf(w.req.core.log)
    {
      if !(c in w.req.senders && v.req.senders[c] == w.req.senders[c]) {
        OwnTimersAreStarted(w, c);
        assert AddAsked(w, v.req.senders[c].value.target);
      }
    }
  }

  lemma OwnTimersAreStarted(w: World, t: nat)
    requires ThreadsInv(w) && t in w.threads
    ensures w.threads[t].timers <= w.threads[t].started
    ensures w.threads[t].phase.Closing? ==> w.threads[t].phase.todo <= w.threads[t].started
  {
  }

  // ---- every stop and every update asked for gets into the channel ----

  /** A stop request, or else an update request, about the timer `id`. */
  predicate IsAbout(e: Request, stop: bool, id: TimerId) {
    if stop then e.StopReq? && e.target == id else e.UpdateReq? && e.target == id
  }

  ghost function Among(q: seq<Request>, stop: bool, id: TimerId): set<int> {
    set i | 0 <= i < |q| && IsAbout(q[i], stop, id)
  }

  ghost function BeingSent(senders: map<nat, C.SenderPc<Request>>, stop: bool, id: TimerId): set<nat> {
    set c | c in senders && senders[c].WantsSend? && IsAbout(senders[c].value, stop, id)
  }

  /** The requests about `id` made so far: accepted, dropped, or still being sent. */
  ghost function Asked(k: C.Sys<Request>, stop: bool, id: TimerId): nat {
    |Among(k.core.log, stop, id)| + |Among(k.core.dropped, stop, id)| + |BeingSent(k.senders, stop, id)|
  }

  function One(b: bool): nat {
    if b then 1 else 0
  }

  lemma AmongSnoc(q: seq<Request>, e: Request, stop: bool, id: TimerId)
    ensures |Among(q + [e], stop, id)| == |Among(q, stop, id)| + One(IsAbout(e, stop, id))
  {
    var q' := q + [e];
    assert forall i :: 0 <= i < |q| ==> q'[i] == q[i];
    assert Among(q', stop, id) == Among(q, stop, id) + if IsAbout(e, stop, id) then {|q|} else {};
  }

  lemma SendingBegins(senders: map<nat, C.SenderPc<Request>>, c: nat, e: Request, stop: bool, id: TimerId)
    requires c !in senders
    ensures |BeingSent(senders[c := C.WantsSend(e)], stop, id)| ==
            |BeingSent(senders, stop, id)| + One(IsAbout(e, stop, id))
  {
    assert BeingSent(senders[c := C.WantsSend(e)], stop, id) ==
           BeingSent(senders, stop, id) + if IsAbout(e, stop, id) then {c} else {};
  }

  lemma SendingEnds(senders: map<nat, C.SenderPc<Request>>, c: nat, after: map<nat, C.SenderPc<Request>>, stop: bool,
                   id: TimerId)
    requires c in senders && senders[c].WantsSend?
    requires c in after ==> !after[c].WantsSend?
    requires forall x :: x != c ==> (x in after <==> x in senders) && (x in senders ==> after[x] == senders[x])
    ensures |BeingSent(senders, stop, id)| == |BeingSent(after, stop, id)| + One(IsAbout(senders[c].value, stop, id))
  {
    hide IsAbout;
    var was, now := BeingSent(senders, stop, id), BeingSent(after, stop, id);
    forall x ensures x in now <==> x in was && x != c {
    }
    assert now == was - {c};
  }

  /** A step on the channel loses and makes up no request: only the start of a call adds one. */
  lemma AskedAfter(k: C.Sys<Request>, a: C.Act<Request>, stop: bool, id: TimerId)
    requires C.Enabled(k, a) && !a.BeginFlush? && forall c :: c in k.senders ==> !k.senders[c].WantsFlush?
    ensures Asked(C.Next(k, a), stop, id) == Asked(k, stop, id) + One(a.BeginSend? && IsAbout(a.v, stop, id))
  {
    hide Among, BeingSent;
    match a {
      case BeginSend(c, v) => SendingBegins(k.senders, c, v, stop, id);
      case Section(c) =>
        SendingEnds(k.senders, c, C.Next(k, a).senders, stop, id);
        AmongSnoc(if k.core.disconnected then k.core.dropped else k.core.log, k.senders[c].value, stop, id);
      case Release(c, _) => SendingKept(k.senders, c, stop, id);
      case _ =>
    }
  }

  lemma SendingKept(senders: map<nat, C.SenderPc<Request>>, c: nat, stop: bool, id: TimerId)
    requires c in senders && !senders[c].WantsSend?
    ensures BeingSent(senders - {c}, stop, id) == BeingSent(senders, stop, id)
  {
  }

  /** The step makes a stop request, or else an update request, about `id`. */
  predicate Asks(w: World, a: Act, stop: bool, id: TimerId) {
    match a
    case Stop(t, x) => stop && x == id && t in w.threads && id in w.threads[t].timers
    case Close(_, x) => stop && x == id
    case Update(_, x) => !stop && x == id
    case _ => false
  }

  lemma AsksInChannel(w: World, a: Act, stop: bool, id: TimerId)
    requires Enabled(w, a)
    ensures var r := RequestStep(w, a);
      Asks(w, a, stop, id) <==> |r| > 0 && r[0].BeginSend? && IsAbout(r[0].v, stop, id)
  {
  }

  lemma AskedInStep(w: World, a: Act, stop: bool, id: TimerId)
    requires RequestsInv(w) && Enabled(w, a)
    ensures Asked(Next(w, a).req, stop, id) == Asked(w.req, stop, id) + One(Asks(w, a, stop, id))
  {
    hide Next, Enabled, C.Next, C.Enabled, C.Inv, Asked, Asks, IsAbout, RequestStep;
    RequestStepIs(w, a);
    AsksInChannel(w, a, stop, id);
    if |RequestStep(w, a)| > 0 {
      AskedAfter(w.req, RequestStep(w, a)[0], stop, id);
    }
  }

  /** The thread that asks for a stop has it in its own history. */
  lemma StopRequestsAfter(w: World, a: Act)
    requires Enabled(w, a)
    ensures Next(w, a).threads.Keys == w.threads.Keys
    ensures forall t :: t in w.threads ==>
      Next(w, a).threads[t].stopRequests ==
        w.threads[t].stopRequests +
        (if (a.Stop? || a.Close?) && a.t == t && Asks(w, a, true, a.id) then [a.id] else [])
  {
    ThreadStepIs(w, a);
    StopsInThread(w, a);
    hide Next, Enabled, E.Next, E.Enabled, ThreadStep, Asks;
    var r := ThreadStep(w, a);
    if |r| > 0 {
      LoopStops(w.threads[r[0].0], r[0].1);
    }
    forall t | t in w.threads ensures w.threads[t].stopRequests + [] == w.threads[t].stopRequests {
    }
  }

  lemma LoopStops(s: E.Loop, a: E.Act)
    requires E.Enabled(s, a)
    ensures E.Next(s, a).stopRequests == s.stopRequests + if LoopAsks(s, a) then [a.id] else []
  {
  }

  predicate LoopAsks(s: E.Loop, a: E.Act) {
    (a.StopTimer? && a.id in s.timers) || a.CloseTimer?
  }

  lemma StopsInThread(w: World, a: Act)
    requires Enabled(w, a)
    ensures var r := ThreadStep(w, a);
      if (a.Stop? || a.Close?) && Asks(w, a, true, a.id) then
        |r| > 0 && r[0].0 == a.t && r[0].0 in w.threads && LoopAsks(w.threads[r[0].0], r[0].1) && r[0].1.id == a.id
      else |r| > 0 && r[0].0 in w.threads ==> !LoopAsks(w.threads[r[0].0], r[0].1)
  {
  }

  ghost predicate AskedInv(w: World) {
    forall id :: Asked(w.req, true, id) ==
      if id in w.owner && w.owner[id] in w.threads then T.Times(w.threads[w.owner[id]].stopRequests, id) else 0
  }

  /** Only the thread that started a timer asks for its stop. */
  lemma StopIsByTheOwner(w: World, a: Act)
    requires ThreadsInv(w) && OwnersInv(w) && Enabled(w, a)
    ensures (a.Stop? || a.Close?) && Asks(w, a, true, a.id) ==> a.id in w.owner && w.owner[a.id] == a.t
    ensures forall id :: Asks(w, a, true, id) ==> (a.Stop? || a.Close?) && a.id == id
  {
    hide Next, ThreadsInv, E.Next;
    if (a.Stop? || a.Close?) && Asks(w, a, true, a.id) {
      OwnTimersAreStarted(w, a.t);
    }
  }

  lemma NothingStoppedYet(w: World, t: nat, id: TimerId)
    requires ThreadsInv(w) && t in w.threads && id !in w.threads[t].started
    ensures T.Times(w.threads[t].stopRequests, id) == 0
  {
    assert LoopInv(w.threads[t]);
  }

  lemma StepKeepsAskedInv(w: World, a: Act)
    requires ThreadsInv(w) && RequestsInv(w) && OwnersInv(w) && AskedInv(w) && Enabled(w, a)
    ensures AskedInv(Next(w, a))
  {
    hide Next, Enabled, ThreadStep, ThreadsInv, RequestsInv, Asks, Asked, T.Times;
    var v := Next(w, a);
    ThreadStepIs(w, a);
    StopRequestsAfter(w, a);
    StopIsByTheOwner(w, a);
    StartIsByAThread(w, a);
    forall t | t in w.threads ensures w.threads[t].stopRequests + [] == w.threads[t].stopRequests {
    }
    forall id
      ensures Asked(v.req, true, id) ==
        if id in v.owner && v.owner[id] in v.threads then T.Times(v.threads[v.owner[id]].stopRequests, id) else 0
    {
      AskedInStep(w, a, true, id);
      if a.Start? && id == w.nextId {
        NothingStoppedYet(w, a.t, id);
      } else if id in w.owner && (a.Stop? || a.Close?) {
        T.TimesSnoc(w.threads[w.owner[id]].stopRequests, a.id, id);
      }
    }
  }

  // ---- expiries go to the owner ----

  ghost predicate ExpiriesInv(w: World) {
    && (forall id :: id in w.owner ==>
          w.owner[id] in w.threads &&
          T.Times(w.regs.sent, id) == T.Times(w.threads[w.owner[id]].expiries, id))
    && (forall id :: id in w.regs.sent ==> id in w.owner)
    && (forall t, id :: t in w.threads && id in w.threads[t].expiries ==> id in w.owner && w.owner[id] == t)
  }

  lemma StepKeepsExpiriesInv(w: World, a: Act)
    requires OwnersInv(w) && HandledAddsInv(w) && ExpiriesInv(w) && Enabled(w, a)
    ensures ExpiriesInv(Next(w, a))
  {
    hide Next, Enabled, ThreadStep, T.Times, R.AddsOf;
    var v := Next(w, a);
    StartedAfter(w, a);
    ThreadStepIs(w, a);
    RegistryEffect(w, a);
    if a.Completion? && R.Sends(w.regs.maps, a.u, a.res) {
      ExpirySentKeepsInv(w, v, w.regs.maps.pending[a.u].timerId);
    } else {
      StartIsByAThread(w, a);
      assert a.Start? ==> a.t in w.threads && v.owner == w.owner[w.nextId := a.t];
      NothingSentKeepsInv(w, v);
    }
  }

  ghost predicate SentToOwner(w: World, id: TimerId)
    requires id in w.owner && w.owner[id] in w.threads
  {
    T.Times(w.regs.sent, id) == T.Times(w.threads[w.owner[id]].expiries, id)
  }

  /** An expiry for `x` was sent to the thread the registry names. */
  lemma ExpirySentKeepsInv(w: World, v: World, x: TimerId)
    requires OwnersInv(w) && HandledAddsInv(w) && ExpiriesInv(w) && x in w.regs.maps.txs
    requires v.owner == w.owner && v.threads.Keys == w.threads.Keys && v.regs.sent == w.regs.sent + [x]
    requires forall t :: t in w.threads ==>
      v.threads[t].expiries == w.threads[t].expiries + (if w.regs.maps.txs[x] == t then [x] else [])
    ensures ExpiriesInv(v)
  {
    hide T.Times, R.AddsOf, OwnersInv;
    forall id | id in v.owner ensures v.owner[id] in v.threads && SentToOwner(v, id) {
      var o := w.owner[id];
      assert o in w.threads && SentToOwner(w, id);
      T.TimesSnoc(w.regs.sent, x, id);
      T.TimesSnoc(w.threads[o].expiries, x, id);
      assert w.threads[o].expiries + [] == w.threads[o].expiries;
    }
    forall t, id | t in v.threads && id in v.threads[t].expiries ensures id in v.owner && v.owner[id] == t {
      assert id in w.threads[t].expiries || (id == x && w.regs.maps.txs[x] == t);
    }
  }

  lemma NothingSentKeepsInv(w: World, v: World)
    requires OwnersInv(w) && ExpiriesInv(w) && v.regs.sent == w.regs.sent && v.threads.Keys == w.threads.Keys
    requires forall t :: t in w.threads ==> v.threads[t].expiries == w.threads[t].expiries + []
    requires v.owner == w.owner || exists t :: t in w.threads && v.owner == w.owner[w.nextId := t]
    ensures ExpiriesInv(v)
  {
    NextIdIsUnused(w);
    hide T.Times, OwnersInv;
    forall t | t in w.threads ensures v.threads[t].expiries == w.threads[t].expiries {
      assert w.threads[t].expiries + [] == w.threads[t].expiries;
    }
    forall id | id in v.owner ensures v.owner[id] in v.threads && SentToOwner(v, id) {
      if id in w.owner {
        assert v.owner[id] == w.owner[id] && SentToOwner(w, id);
      } else {
        NoneSent(w, v.owner[id], id);
      }
    }
  }

  lemma NextIdIsUnused(w: World)
    requires OwnersInv(w)
    ensures w.nextId !in w.owner
  {
  }

  lemma NoneSent(w: World, t: nat, id: TimerId)
    requires ExpiriesInv(w) && t in w.threads && id !in w.owner
    ensures T.Times(w.regs.sent, id) == 0 && T.Times(w.threads[t].expiries, id) == 0
  {
    assert id !in w.regs.sent && id !in w.threads[t].expiries;
  }

  // ---- all of it, over whole runs ----

  ghost predicate Inv(w: World) {
    && ThreadsInv(w) && R.Inv(w.regs) && RequestsInv(w) && OwnersInv(w) && AddsInv(w) && HandledAddsInv(w)
    && StopsInv(w) && AskedInv(w) && ExpiriesInv(w)
  }

  lemma StepKeepsInv(w: World, a: Act)
    requires Inv(w) && Enabled(w, a)
    ensures Inv(Next(w, a))
  {
    hide ThreadsInv, R.Inv, RequestsInv, OwnersInv, AddsInv, HandledAddsInv, StopsInv, AskedInv, ExpiriesInv;
    hide Next, Enabled;
    StepKeepsThreadsInv(w, a);
    StepKeepsRegistryInv(w, a);
    StepKeepsRequestsInv(w, a);
    StepKeepsOwnersInv(w, a);
    StepKeepsAddsInv(w, a);
    StepKeepsHandledAddsInv(w, a);
    StepKeepsStopsInv(w, a);
    StepKeepsAskedInv(w, a);
    StepKeepsExpiriesInv(w, a);
  }

  lemma FreshPartsHaveInv()
    ensures LoopInv(E.Init()) && R.Inv(R.Init()) && C.Inv(C.Init<Request>())
    ensures E.Init().started == {} && E.Init().expiries == []
  {
  }

  lemma NothingAskedYet()
    ensures forall stop, id :: Asked(C.Init(), stop, id) == 0
  {
    forall stop, id ensures Asked(C.Init(), stop, id) == 0 {
      assert Among([], stop, id) == {} && BeingSent(map[], stop, id) == {};
    }
  }

  lemma InitHasInv(tids: set<nat>)
    ensures Inv(Init(tids))
  {
    hide LoopInv, E.Init, R.Inv, C.Inv, Asked;
    FreshPartsHaveInv();
    NothingAskedYet();
  }

  lemma {:induction false} RunKeepsInv(w: World, acts: seq<Act>)
    requires Inv(w) && Valid(w, acts)
    ensures Inv(Run(w, acts))
  {
    hide Inv, Next, Enabled;
    if |acts| == 0 {
    } else {
      var n := |acts| - 1;
      RunKeepsInv(w, acts[..n]);
      StepKeepsInv(Run(w, acts[..n]), acts[n]);
    }
  }

  lemma EveryReachableWorldHasInv(tids: set<nat>, acts: seq<Act>)
    requires Valid(Init(tids), acts)
    ensures Inv(Run(Init(tids), acts))
  {
    InitHasInv(tids);
    RunKeepsInv(Init(tids), acts);
  }

  /** End to end: of the expiries of `id` that the kernel reported while a sender handle was there, each one ran the
    callback, was discarded as unknown, is in the owner's batch, is queued there, was flushed, was dropped because the
    owner's receiver was gone, or is being sent; and none is counted twice. */
  lemma ExpiriesAreConserved(tids: set<nat>, acts: seq<Act>, id: TimerId)
    requires Valid(Init(tids), acts) && id in Run(Init(tids), acts).owner
    ensures var w := Run(Init(tids), acts);
      && w.owner[id] in w.threads
      && var s := w.threads[w.owner[id]];
         var k, e := s.sys.core, Expired(id);
         && |k.log| == |k.marks|
         && multiset(w.regs.sent)[id] == multiset(s.expiries)[id] ==
              multiset(s.callbacks)[id] + multiset(s.unknown)[id]
              + multiset(C.InFlight(s.sys))[e] + multiset(k.queue)[e]
              + multiset(Discarded(k.log, k.marks))[e] + multiset(k.dropped)[e]
              + if E.TIMER in s.sys.senders && s.sys.senders[E.TIMER] == C.WantsSend(e) then 1 else 0
  {
    EveryReachableWorldHasInv(tids, acts);
    var w := Run(Init(tids), acts);
    OwnersExpiriesConserved(w, id);
    hide Inv;
  }

  lemma OwnersExpiriesConserved(w: World, id: TimerId)
    requires Inv(w) && id in w.owner
    ensures var t := w.owner[id];
      && t in w.threads && T.Conserved(w.threads[t], id)
      && T.Times(w.regs.sent, id) == T.Times(w.threads[t].expiries, id)
  {
    hide T.Conserved, T.SentInv, T.HandledInv, E.Inv, T.Times;
    var t := w.owner[id];
    assert LoopInv(w.threads[t]);
    assert T.SentInv(w.threads[t], id) && T.HandledInv(w.threads[t], id);
    T.ConservedNow(w.threads[t], id);
  }

  /** An expiry is only ever in the queue of the thread that started its timer. */
  lemma ExpiriesReachOnlyTheOwner(tids: set<nat>, acts: seq<Act>, t: nat, id: TimerId)
    requires Valid(Init(tids), acts) && t in Run(Init(tids), acts).threads
    requires Expired(id) in Run(Init(tids), acts).threads[t].sys.core.log
    ensures var w := Run(Init(tids), acts); id in w.owner && w.owner[id] == t
  {
    EveryReachableWorldHasInv(tids, acts);
    LoggedExpiryWasSent(Run(Init(tids), acts), t, id);
  }

  lemma LoggedExpiryWasSent(w: World, t: nat, id: TimerId)
    requires Inv(w) && t in w.threads && Expired(id) in w.threads[t].sys.core.log
    ensures id in w.owner && w.owner[id] == t
  {
    hide T.SentInv, T.HandledInv, T.StopsInv, E.Inv, R.Inv;
    hide RequestsInv, AddsInv, HandledAddsInv, StopsInv, AskedInv, OwnersInv;
    assert LoopInv(w.threads[t]);
    LoggedIsSent(w.threads[t], id);
  }

  lemma LoggedIsSent(s: E.Loop, id: TimerId)
    requires T.SentInv(s, id) && Expired(id) in s.sys.core.log
    ensures id in s.expiries
  {
  }

  /** No stop request is lost on its way: those a thread has made for its timer are exactly those accepted into the
    request channel, those dropped because the receiver was gone, and those still being sent. */
  lemma StopRequestsReachTheChannel(tids: set<nat>, acts: seq<Act>, w: World, id: TimerId)
    requires Valid(Init(tids), acts) && w == Run(Init(tids), acts) && id in w.owner
    ensures w.owner[id] in w.threads
    ensures T.Times(w.threads[w.owner[id]].stopRequests, id) ==
      |set i | 0 <= i < |w.req.core.log| && w.req.core.log[i].StopReq? && w.req.core.log[i].target == id| +
      |set i | 0 <= i < |w.req.core.dropped| && w.req.core.dropped[i].StopReq? && w.req.core.dropped[i].target == id| +
      |set c | c in w.req.senders && w.req.senders[c].WantsSend? && w.req.senders[c].value.StopReq? &&
               w.req.senders[c].value.target == id|
    ensures w.req.core.dropped != [] ==> w.req.core.disconnected
  {
    EveryReachableWorldHasInv(tids, acts);
    StopsAskedFor(w, id);
    AmongIs(w.req.core.log, id);
    AmongIs(w.req.core.dropped, id);
    SendingIs(w.req.senders, id);
  }

  lemma StopsAskedFor(w: World, id: TimerId)
    requires Inv(w) && id in w.owner
    ensures w.owner[id] in w.threads
    ensures T.Times(w.threads[w.owner[id]].stopRequests, id) == Asked(w.req, true, id)
    ensures w.req.core.dropped != [] ==> w.req.core.disconnected
  {
    hide ThreadsInv, R.Inv, AddsInv, HandledAddsInv, StopsInv, ExpiriesInv, C.Inv, Asked, T.Times;
  }

  lemma AmongIs(q: seq<Request>, id: TimerId)
    ensures |Among(q, true, id)| == |set i | 0 <= i < |q| && q[i].StopReq? && q[i].target == id|
    ensures |Among(q, false, id)| == |set i | 0 <= i < |q| && q[i].UpdateReq? && q[i].target == id|
  {
    assert Among(q, true, id) == set i | 0 <= i < |q| && q[i].StopReq? && q[i].target == id;
    assert Among(q, false, id) == set i | 0 <= i < |q| && q[i].UpdateReq? && q[i].target == id;
  }

  lemma SendingIs(k: map<nat, C.SenderPc<Request>>, id: TimerId)
    ensures |BeingSent(k, true, id)| ==
      |set c | c in k && k[c].WantsSend? && k[c].value.StopReq? && k[c].value.target == id|
    ensures |BeingSent(k, false, id)| ==
      |set c | c in k && k[c].WantsSend? && k[c].value.UpdateReq? && k[c].value.target == id|
  {
    assert BeingSent(k, true, id) == set c | c in k && k[c].WantsSend? && k[c].value.StopReq? && k[c].value.target == id;
    assert BeingSent(k, false, id) ==
      set c | c in k && k[c].WantsSend? && k[c].value.UpdateReq? && k[c].value.target == id;
  }

  /** The same for updates: of those made in a run, each is accepted, dropped, or still being sent. */
  lemma UpdatesReachTheChannel(tids: set<nat>, acts: seq<Act>, w: World, id: TimerId)
    requires Valid(Init(tids), acts) && w == Run(Init(tids), acts)
    ensures |set i | 0 <= i < |acts| && acts[i].Update? && acts[i].target == id| ==
      |set i | 0 <= i < |w.req.core.log| && w.req.core.log[i].UpdateReq? && w.req.core.log[i].target == id| +
      |set i | 0 <= i < |w.req.core.dropped| && w.req.core.dropped[i].UpdateReq? && w.req.core.dropped[i].target == id| +
      |set c | c in w.req.senders && w.req.senders[c].WantsSend? && w.req.senders[c].value.UpdateReq? &&
               w.req.senders[c].value.target == id|
  {
    UpdatesAsked(tids, acts, id);
    AmongIs(w.req.core.log, id);
    AmongIs(w.req.core.dropped, id);
    SendingIs(w.req.senders, id);
  }

  lemma {:induction false} UpdatesAsked(tids: set<nat>, acts: seq<Act>, id: TimerId)
    requires Valid(Init(tids), acts)
    ensures |set i | 0 <= i < |acts| && acts[i].Update? && acts[i].target == id| ==
      Asked(Run(Init(tids), acts).req, false, id)
  {
    hide Inv, Next, Enabled, Asked, Asks;
    if |acts| == 0 {
      NothingAskedYet();
    } else {
      var n := |acts| - 1;
      UpdatesAsked(tids, acts[..n], id);
      EveryReachableWorldHasInv(tids, acts[..n]);
      var w := Run(Init(tids), acts[..n]);
      RequestsAreFine(w);
      AskedInStep(w, acts[n], false, id);
      UpdatesSnoc(w, acts[..n], acts[n], id);
      assert acts[..n] + [acts[n]] == acts;
    }
  }

  lemma UpdatesSnoc(w: World, acts: seq<Act>, a: Act, id: TimerId)
    ensures |set i | 0 <= i < |acts + [a]| && (acts + [a])[i].Update? && (acts + [a])[i].target == id| ==
      |set i | 0 <= i < |acts| && acts[i].Update? && acts[i].target == id| + One(Asks(w, a, false, id))
  {
    var all := acts + [a];
    var was, now := set i | 0 <= i < |acts| && acts[i].Update? && acts[i].target == id,
                    set i | 0 <= i < |all| && all[i].Update? && all[i].target == id;
    assert forall i :: 0 <= i < |acts| ==> all[i] == acts[i];
    assert now == was + if a.Update? && a.target == id then {|acts|} else {};
  }

  lemma RequestsAreFine(w: World)
    requires Inv(w)
    ensures RequestsInv(w) && C.Inv(w.req)
  {
    hide ThreadsInv, R.Inv, OwnersInv, AddsInv, HandledAddsInv, StopsInv, AskedInv, ExpiriesInv, C.Inv;
  }

  /** Handling the request at the front of the batch does what the request asks for. */
  lemma FrontIsHandled(w: World, ok: bool)
    requires Enabled(w, Process(ok))
    ensures var e, m, m' := w.req.rx.rest[0], w.regs.maps, Next(w, Process(ok)).regs.maps;
      && (e.AddReq? ==>
            && m'.txs == (if ok then m.txs[e.id := e.owner] else m.txs)
            && m'.pending == (if ok then m.pending[m.nextUring := R.Pending(R.TimerKind, e.id)] else m.pending))
      && (!e.AddReq? ==>
            var known := exists u :: u in m.pending && m.pending[u] == R.Pending(R.TimerKind, e.target);
            && m'.txs == m.txs
            && (!known || !ok ==> m'.pending == m.pending)
            && (known && ok && e.UpdateReq? ==> m'.pending == m.pending[m.nextUring := R.Pending(R.UpdateKind, e.reqId)])
            && (known && ok && e.StopReq? ==> m'.pending == m.pending[m.nextUring := R.Pending(R.CancelKind, e.reqId)]))
  {
    hide E.Next, E.Enabled, C.Next;
    var m, e := w.regs.maps, w.req.rx.rest[0];
    if !e.AddReq? {
      assert R.Known(m, e.target) <==>
             exists u :: u in m.pending && m.pending[u] == R.Pending(R.TimerKind, e.target) by {
        if u :| u in m.pending && m.pending[u] == R.Pending(R.TimerKind, e.target) {
          assert R.IsTimer(m, u, e.target);
        }
      }
    }
  }

  /** A stop request always finds its timer: when it is handled, its Add has been handled before it, so unless the
    kernel refused that Add the timer has its entry, whatever completions came in between; and once the kernel accepts
    the cancel, that has an entry of its own beside the timer's. */
  lemma StopFindsItsTimer(tids: set<nat>, acts: seq<Act>, w: World, reqId: TimerId, target: TimerId)
    requires Valid(Init(tids), acts) && w == Run(Init(tids), acts)
    requires C.Enabled(w.req, C.Deliver) && w.req.rx.rest[0] == StopReq(reqId, target)
    ensures Enabled(w, Process(true)) && target in w.regs.added
    ensures var m, m' := w.regs.maps, Next(w, Process(true)).regs.maps;
      target in w.regs.failed ||
      exists u :: u in m.pending && m.pending[u] == R.Pending(R.TimerKind, target) && u != m.nextUring &&
                  m'.pending == m.pending[m.nextUring := R.Pending(R.CancelKind, reqId)]
  {
    EveryReachableWorldHasInv(tids, acts);
    FrontStopFindsItsTimer(w, reqId, target);
    PendingAddsAreFresh(w, true);
    hide Inv, Enabled, Next;
    FrontIsHandled(w, true);
    if target !in w.regs.failed {
      var u :| R.IsTimer(w.regs.maps, u, target);
      EntryIsOld(w, u);
    }
  }

  lemma EntryIsOld(w: World, u: nat)
    requires Inv(w) && u in w.regs.maps.pending
    ensures u < w.regs.maps.nextUring
  {
    hide ThreadsInv, RequestsInv, OwnersInv, AddsInv, HandledAddsInv, StopsInv, AskedInv, ExpiriesInv;
  }

  lemma FrontStopFindsItsTimer(w: World, reqId: TimerId, target: TimerId)
    requires C.Enabled(w.req, C.Deliver) && w.req.rx.rest[0] == StopReq(reqId, target) && Inv(w)
    ensures target in w.regs.added && (target in w.regs.failed || R.Known(w.regs.maps, target))
  {
    hide R.AddsOf, ThreadsInv, RequestsInv, OwnersInv, AskedInv, ExpiriesInv, R.Known;
    FrontIsNext(w);
    assert R.TimersInv(w.regs);
  }

  /** A completion of a timer's own entry: an expiry (-62) is handed to the thread that started the timer and to nobody
    else, a cancellation (-125) takes that thread's sender away, and any other result does neither. */
  lemma CompletionReachesTheOwner(tids: set<nat>, acts: seq<Act>, w: World, u: nat, res: int, id: TimerId)
    requires Valid(Init(tids), acts) && w == Run(Init(tids), acts) && Enabled(w, Completion(u, res))
    requires u in w.regs.maps.pending && w.regs.maps.pending[u] == R.Pending(R.TimerKind, id)
    ensures var m, v := w.regs.maps, Next(w, Completion(u, res));
      && v.regs.maps.pending == m.pending
      && v.regs.maps.txs == (if res == -125 then m.txs - {id} else m.txs)
      && (res == -62 && id in m.txs ==>
            && id in w.owner && w.owner[id] == m.txs[id] && m.txs[id] in w.threads && m.txs[id] in v.threads
            && var s := v.threads[m.txs[id]];
            && v.threads == w.threads[m.txs[id] := s]
            && s.expiries == w.threads[m.txs[id]].expiries + [id]
            && E.TIMER in s.sys.senders && s.sys.senders[E.TIMER] == C.WantsSend(Expired(id)))
      && (res != -62 || id !in m.txs ==> v.threads == w.threads)
  {
    EveryReachableWorldHasInv(tids, acts);
    SendersBelongToOwners(w);
    CompletionEffect(w, u, res, id);
    hide Inv, Enabled, Next, E.Enabled, E.Next;
    if res == -62 && id in w.regs.maps.txs {
      ExpireEffect(w.threads[w.regs.maps.txs[id]], id);
    }
  }

  lemma CompletionEffect(w: World, u: nat, res: int, id: TimerId)
    requires Enabled(w, Completion(u, res))
    requires u in w.regs.maps.pending && w.regs.maps.pending[u] == R.Pending(R.TimerKind, id)
    ensures var m, v := w.regs.maps, Next(w, Completion(u, res));
      && v.regs.maps.pending == m.pending
      && v.regs.maps.txs == (if res == -125 then m.txs - {id} else m.txs)
      && (res == -62 && id in m.txs ==>
            var t := m.txs[id];
            && t in w.threads && E.Enabled(w.threads[t], E.Expire(id))
            && v.threads == w.threads[t := E.Next(w.threads[t], E.Expire(id))])
      && (res != -62 || id !in m.txs ==> v.threads == w.threads)
  {
    hide E.Next, E.Enabled, C.Next, C.Enabled;
  }

  lemma ExpireEffect(s: E.Loop, id: TimerId)
    requires E.Enabled(s, E.Expire(id))
    ensures var s' := E.Next(s, E.Expire(id));
      s'.expiries == s.expiries + [id] && E.TIMER in s'.sys.senders &&
      s'.sys.senders[E.TIMER] == C.WantsSend(Expired(id))
  {
  }

  lemma SendersBelongToOwners(w: World)
    requires Inv(w)
    ensures forall id :: id in w.regs.maps.txs ==> id in w.owner && w.owner[id] == w.regs.maps.txs[id]
  {
    hide ThreadsInv, R.Inv, RequestsInv, OwnersInv, AddsInv, StopsInv, AskedInv, ExpiriesInv;
  }

  /** The requests still to be handled never repeat an id, so the timer thread can always handle the next one. */
  lemma NextRequestCanBeHandled(tids: set<nat>, acts: seq<Act>, ok: bool)
    requires Valid(Init(tids), acts)
    ensures var w := Run(Init(tids), acts);
      && R.FreshAdds(C.InFlight(w.req) + w.req.core.queue, w.regs.added)
      && (C.Enabled(w.req, C.Deliver) ==> Enabled(w, Process(ok)))
  {
    EveryReachableWorldHasInv(tids, acts);
    PendingAddsAreFresh(Run(Init(tids), acts), ok);
  }

  lemma PendingAddsAreFresh(w: World, ok: bool)
    requires Inv(w)
    ensures R.FreshAdds(C.InFlight(w.req) + w.req.core.queue, w.regs.added)
    ensures C.Enabled(w.req, C.Deliver) ==> Enabled(w, Process(ok))
  {
    hide C.Inv, R.AddsOf, ThreadsInv, OwnersInv, StopsInv, AskedInv, ExpiriesInv, R.Inv;
    RequestsInOrder(w);
    var rest := C.InFlight(w.req) + w.req.core.queue;
    assert w.req.core.log == w.req.delivered + rest;
    R.FreshSplit(w.req.delivered, rest, {});
    assert {} + R.AddsOf(w.req.delivered) == w.regs.added;
    if C.Enabled(w.req, C.Deliver) {
      assert rest[0] == w.req.rx.rest[0];
    }
  }
}
