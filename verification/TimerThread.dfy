/** The `TimerThread` class of src/timers/timer_thread.hpp and src/timers/timer_thread.cpp, updating its maps in place.
  The object carries the registry state of `Registry` along, so what is proved there over all sequences holds of it. */
module TimerThreads {
  import opened Events
  import opened Channel
  import R = Registry

  datatype Option<T> = None | Some(value: T)

  /** What is handed to the kernel: the entry's own user data and, for the last two, the user data of the timer. */
  datatype Submission = Timeout(data: nat) | Update(data: nat, timer: nat) | Cancel(data: nat, timer: nat)

  /** One turn of the `Run` loop: does the stop token say stop when the loop looks at it, the requests that other threads
    send before the turn, the completion the kernel picks, whether the wait for a permit gives up, requests that come in
    between that wait and the locked section, and which submissions the kernel accepts. */
  datatype Tick =
    Tick(stop: bool, incoming: seq<Request>, u: nat, res: int, expired: bool, between: seq<Request>, oks: seq<bool>)

  /** What a turn found: was there a completion, and which requests were handled. */
  datatype Found = Found(came: bool, batch: seq<Request>)

  /** The registry steps that handling a batch is, one for each request in order. */
  function BatchActs(q: seq<Request>, oks: seq<bool>): seq<R.Act> {
    seq(|q|, i requires 0 <= i < |q| => R.RequestAct(q[i], i < |oks| && oks[i]))
  }

  function Incoming(ticks: seq<Tick>): seq<Request> {
    if |ticks| == 0 then [] else ticks[0].incoming + ticks[0].between + Incoming(ticks[1..])
  }

  /** The registry steps of one turn: its completion, then its requests in order. */
  function TurnActs(t: Tick, f: Found): seq<R.Act> {
    (if f.came then [R.Cqe(t.u, t.res)] else []) + BatchActs(f.batch, t.oks)
  }

  /** The registry steps of all turns, end to end. */
  function RunActs(ticks: seq<Tick>, found: seq<Found>): seq<R.Act>
    requires |found| <= |ticks|
  {
    if |found| == 0 then [] else
    var n := |found| - 1;
    RunActs(ticks, found[..n]) + TurnActs(ticks[n], found[n])
  }

  /** The requests handled in all turns, in order. */
  function Handled(found: seq<Found>): seq<Request> {
    if |found| == 0 then [] else
    var n := |found| - 1;
    Handled(found[..n]) + found[n].batch
  }

  lemma TurnsSnoc(front: seq<R.Act>, ticks: seq<Tick>, found: seq<Found>, f: Found)
    requires |found| < |ticks|
    ensures front + RunActs(ticks, found + [f]) == front + RunActs(ticks, found) + TurnActs(ticks[|found|], f)
    ensures Handled(found + [f]) == Handled(found) + f.batch
  {
    assert (found + [f])[..|found|] == found;
    Associates(front, RunActs(ticks, found), TurnActs(ticks[|found|], f));
  }

  lemma Associates<T>(a: seq<T>, b: seq<T>, c: seq<T>)
    ensures a + (b + c) == a + b + c
  {
  }

  lemma AddEffect(s: R.Sys, id: TimerId, owner: nat, ok: bool)
    requires id !in s.added
    ensures var a, n := R.DoAdd(id, owner, ok), s.maps.nextUring;
      R.Enabled(s, a) &&
      R.Next(s, a) == if ok
        then s.(maps := R.Maps(n + 1, s.maps.pending[n := R.Pending(R.TimerKind, id)], s.maps.txs[id := owner]),
                added := s.added + {id}, timers := s.timers + {n}, adds := s.adds + 1)
        else s.(maps := s.maps.(nextUring := n + 1), added := s.added + {id}, failed := s.failed + {id})
  {
  }

  lemma ModifyEffect(s: R.Sys, kind: R.Kind, reqId: TimerId, target: TimerId, ok: bool, known: bool)
    requires !kind.TimerKind? && known == R.Known(s.maps, target)
    ensures var a, n := R.DoModify(kind, reqId, target, ok), s.maps.nextUring;
      R.Enabled(s, a) &&
      R.Next(s, a) == if !known then s
        else if !ok then s.(maps := s.maps.(nextUring := n + 1))
        else s.(maps := s.maps.(nextUring := n + 1, pending := s.maps.pending[n := R.Pending(kind, reqId)]),
                acks := s.acks + {n}, mods := s.mods + 1)
  {
  }

  lemma CqeEffect(s: R.Sys, u: nat, res: int)
    requires R.Inv(s) && (u in s.timers || u in s.acks)
    ensures R.Enabled(s, R.Cqe(u, res)) && u in s.maps.pending
    ensures var t, p := R.Next(s, R.Cqe(u, res)), s.maps.pending[u];
      && t.timers == s.timers && t.acks == s.acks - {u} && t.maps.nextUring == s.maps.nextUring
      && t.maps.pending == (if p.kind.TimerKind? then s.maps.pending else s.maps.pending - {u})
      && t.maps.txs == (if p.kind.TimerKind? && res == -125 then s.maps.txs - {p.timerId} else s.maps.txs)
      && t.added == s.added
      && t.sent == s.sent +
         (if p.kind.TimerKind? && res == -62 && p.timerId in s.maps.txs then [p.timerId] else [])
  {
  }

  lemma AddedEffect(s: R.Sys, a: R.Act)
    requires R.Enabled(s, a)
    ensures R.Next(s, a).added == s.added + if a.DoAdd? then {a.id} else {}
  {
  }

  lemma OneTimerPerId(s: R.Sys, u: nat, v: nat, id: TimerId)
    requires R.Inv(s) && R.IsTimer(s.maps, u, id) && R.IsTimer(s.maps, v, id)
    ensures u == v
  {
  }

  class TimerThread {
    const notifier: Notifier<Request>
    var nextUringId: nat
    var pendingUringEvents: map<nat, R.Pending>
    var txs: map<TimerId, nat>

    // the kernel's side: what it may still complete, and everything it was handed
    var uringTimers: set<nat>
    var uringAcks: set<nat>
    var submissions: seq<Submission>

    // `tx->send` calls: which expiry, to which thread
    var sends: seq<(TimerId, nat)>

    ghost var model: R.Sys
    ghost var trace: seq<R.Act>

    ghost function Maps(): R.Maps
      reads this
    {
      R.Maps(nextUringId, pendingUringEvents, txs)
    }

    ghost predicate Valid()
      reads this
    {
      && R.Valid(R.Init(), trace) && model == R.Run(R.Init(), trace) && R.Inv(model)
      && model.maps == Maps() && model.timers == uringTimers && model.acks == uringAcks
      && |model.sent| == |sends| && forall i :: 0 <= i < |sends| ==> model.sent[i] == sends[i].0
    }

    /** The last step on the registry was `a`. */
    twostate predicate Did(a: R.Act)
      reads this
    {
      R.Enabled(old(model), a) && model == R.Next(old(model), a) && trace == old(trace) + [a]
    }

    constructor ()
      ensures Valid() && fresh(notifier) && trace == []
      ensures notifier.State() == Core(0, [], false, [], [], []) && sends == [] && submissions == []
    {
      notifier := new Notifier();
      nextUringId, pendingUringEvents, txs := 0, map[], map[];
      uringTimers, uringAcks, submissions, sends := {}, {}, [], [];
      model, trace := R.Init(), [];
    }

    ghost method Record(a: R.Act)
      requires R.Valid(R.Init(), trace) && model == R.Run(R.Init(), trace) && R.Inv(model) && R.Enabled(model, a)
      modifies `model, `trace
      ensures R.Valid(R.Init(), trace) && model == R.Run(R.Init(), trace) && R.Inv(model) && Did(a)
    {
      R.StepKeepsInv(model, a);
      R.RunSnoc(R.Init(), trace, a);
      model, trace := R.Next(model, a), trace + [a];
    }

    /** `FindUringPendingEvent`: a search in an order the map does not specify. It finds the timer if there is one, and
      by the invariant there is at most one, so every order finds the same. */
    method FindUringPendingEvent(id: TimerId) returns (res: Option<nat>)
      requires Valid()
      ensures res.None? <==> !R.Known(Maps(), id)
      ensures forall u: nat ::
        (u in pendingUringEvents && pendingUringEvents[u] == R.Pending(R.TimerKind, id)) <==> res == Some(u)
    {
      hide R.Inv;
      res := None;
      var todo := pendingUringEvents.Keys;
      while todo != {}
        invariant todo <= pendingUringEvents.Keys
        invariant forall u :: u in pendingUringEvents && pendingUringEvents[u] == R.Pending(R.TimerKind, id) ==> u in todo
        decreases todo
      {
        Inhabited(todo);
        var u :| u in todo;
        var pending := pendingUringEvents[u];
        if pending.kind.TimerKind? && pending.timerId == id {
          assert R.IsTimer(Maps(), u, id);
          forall v: nat | v in pendingUringEvents && pendingUringEvents[v] == pending ensures v == u {
            OneTimerPerId(model, u, v, id);
          }
          return Some(u);
        }
        todo := todo - {u};
      }
    }

    method AddTimer(id: TimerId, owner: nat, ok: bool)
      requires Valid() && id !in model.added
      modifies this
      ensures Valid() && Did(R.DoAdd(id, owner, ok)) && sends == old(sends) && nextUringId == old(nextUringId) + 1
      ensures submissions == if ok then old(submissions) + [Timeout(old(nextUringId))] else old(submissions)
      ensures txs == if ok then old(txs)[id := owner] else old(txs)
      ensures pendingUringEvents ==
        if ok then old(pendingUringEvents)[old(nextUringId) := R.Pending(R.TimerKind, id)] else old(pendingUringEvents)
    {
      hide R.Inv, R.Next, R.Enabled, R.Run, R.Valid;
      AddEffect(model, id, owner, ok);
      var urId := nextUringId;
      nextUringId := nextUringId + 1;
      Record(R.DoAdd(id, owner, ok));
      if !ok {
        return;
      }
      uringTimers, submissions := uringTimers + {urId}, submissions + [Timeout(urId)];
      pendingUringEvents := pendingUringEvents[urId := R.Pending(R.TimerKind, id)];
      txs := txs[id := owner];
    }

    /** `UpdateTimer`: what is submitted refers to the timer's own entry. */
    method UpdateTimer(reqId: TimerId, target: TimerId, ok: bool) returns (timer: Option<nat>)
      requires Valid()
      modifies this
      ensures Valid() && Did(R.DoModify(R.UpdateKind, reqId, target, ok)) && sends == old(sends) && txs == old(txs)
      ensures forall u: nat ::
        (u in old(pendingUringEvents) && old(pendingUringEvents)[u] == R.Pending(R.TimerKind, target)) <==>
        timer == Some(u)
      ensures nextUringId == if timer.Some? then old(nextUringId) + 1 else old(nextUringId)
      ensures submissions ==
        if timer.Some? && ok then old(submissions) + [Update(old(nextUringId), timer.value)] else old(submissions)
      ensures pendingUringEvents ==
        if timer.Some? && ok then old(pendingUringEvents)[old(nextUringId) := R.Pending(R.UpdateKind, reqId)]
        else old(pendingUringEvents)
    {
      hide R.Inv, R.Next, R.Enabled, R.Run, R.Valid;
      timer := FindUringPendingEvent(target);
      ModifyEffect(model, R.UpdateKind, reqId, target, ok, timer.Some?);
      Record(R.DoModify(R.UpdateKind, reqId, target, ok));
      if timer.None? {
        return;
      }
      var urId := nextUringId;
      nextUringId := nextUringId + 1;
      if !ok {
        return;
      }
      uringAcks, submissions := uringAcks + {urId}, submissions + [Update(urId, timer.value)];
      pendingUringEvents := pendingUringEvents[urId := R.Pending(R.UpdateKind, reqId)];
    }

    /** `CancelTimer`. The timer's entry stays. */
    method CancelTimer(reqId: TimerId, target: TimerId, ok: bool) returns (timer: Option<nat>)
      requires Valid()
      modifies this
      ensures Valid() && Did(R.DoModify(R.CancelKind, reqId, target, ok)) && sends == old(sends) && txs == old(txs)
      ensures forall u: nat ::
        (u in old(pendingUringEvents) && old(pendingUringEvents)[u] == R.Pending(R.TimerKind, target)) <==>
        timer == Some(u)
      ensures nextUringId == if timer.Some? then old(nextUringId) + 1 else old(nextUringId)
      ensures submissions ==
        if timer.Some? && ok then old(submissions) + [Cancel(old(nextUringId), timer.value)] else old(submissions)
      ensures pendingUringEvents ==
        if timer.Some? && ok then old(pendingUringEvents)[old(nextUringId) := R.Pending(R.CancelKind, reqId)]
        else old(pendingUringEvents)
    {
      hide R.Inv, R.Next, R.Enabled, R.Run, R.Valid;
      timer := FindUringPendingEvent(target);
      ModifyEffect(model, R.CancelKind, reqId, target, ok, timer.Some?);
      Record(R.DoModify(R.CancelKind, reqId, target, ok));
      if timer.None? {
        return;
      }
      var urId := nextUringId;
      nextUringId := nextUringId + 1;
      if !ok {
        return;
      }
      uringAcks, submissions := uringAcks + {urId}, submissions + [Cancel(urId, timer.value)];
      pendingUringEvents := pendingUringEvents[urId := R.Pending(R.CancelKind, reqId)];
    }

    /** `OnCompleteTimerExpired`. */
    method OnCompleteTimerExpired(id: TimerId, res: int)
      modifies `txs, `sends
      ensures txs == if id in old(txs) && res == -125 then old(txs) - {id} else old(txs)
      ensures sends == if id in old(txs) && res == -62 then old(sends) + [(id, old(txs)[id])] else old(sends)
    {
      if id !in txs {
        return;
      }
      if res == -R.ETIME {
        sends := sends + [(id, txs[id])];
      } else if res == -R.ECANCELED {
        txs := txs - {id};
      }
    }

    /** The first half of a turn of `Run`: the kernel's completion, if `u` is something it may complete. An expiry goes
      to the thread that added the timer. */
    method CompletionStep(u: nat, res: int) returns (came: bool, claimed: bool)
      requires Valid()
      modifies this
      ensures Valid() && came == (u in old(uringTimers) || u in old(uringAcks)) && (came ==> claimed)
      ensures if came then Did(R.Cqe(u, res)) else trace == old(trace)
      ensures model.added == old(model.added) && submissions == old(submissions) && nextUringId == old(nextUringId)
      ensures !came ==> sends == old(sends) && txs == old(txs) && pendingUringEvents == old(pendingUringEvents)
      ensures came ==> u in old(pendingUringEvents)
      ensures came ==>
        var p := old(pendingUringEvents)[u];
        && txs == (if p.kind.TimerKind? && res == -125 then old(txs) - {p.timerId} else old(txs))
        && pendingUringEvents ==
           (if p.kind.TimerKind? then old(pendingUringEvents) else old(pendingUringEvents) - {u})
        && sends == (if p.kind.TimerKind? && res == -62 && p.timerId in old(txs)
                     then old(sends) + [(p.timerId, old(txs)[p.timerId])] else old(sends))
    {
      hide R.Inv, R.Next, R.Enabled, R.Run, R.Valid;
      came, claimed := u in uringTimers || u in uringAcks, false;
      if !came {
        return;
      }
      CqeEffect(model, u, res);
      Record(R.Cqe(u, res));
      uringAcks := uringAcks - {u};
      if u !in pendingUringEvents {
        return;
      }
      claimed := true;
      var event := pendingUringEvents[u];
      if event.kind.TimerKind? {
        OnCompleteTimerExpired(event.timerId, res);
        assert txs.Keys == if res == -R.ECANCELED then old(txs.Keys) - {event.timerId} else old(txs.Keys);
      } else {
        pendingUringEvents := pendingUringEvents - {u};
      }
    }

    /** One request: `timer` is the entry of the timer an update or a stop is about, if there is one. What the kernel is
      handed, and which entry is added, depends on the kind of request; a request about an unknown timer does nothing. */
    method HandleRequest(e: Request, ok: bool) returns (timer: Option<nat>)
      requires Valid() && (e.AddReq? ==> e.id !in model.added)
      modifies this
      ensures Valid() && Did(R.RequestAct(e, ok)) && sends == old(sends)
      ensures model.added == old(model.added) + if e.AddReq? then {e.id} else {}
      ensures e.AddReq? ==>
        && nextUringId == old(nextUringId) + 1
        && submissions == (if ok then old(submissions) + [Timeout(old(nextUringId))] else old(submissions))
        && txs == (if ok then old(txs)[e.id := e.owner] else old(txs))
        && pendingUringEvents ==
           (if ok then old(pendingUringEvents)[old(nextUringId) := R.Pending(R.TimerKind, e.id)]
            else old(pendingUringEvents))
      ensures !e.AddReq? ==>
        && txs == old(txs)
        && (forall u: nat ::
              (u in old(pendingUringEvents) && old(pendingUringEvents)[u] == R.Pending(R.TimerKind, e.target)) <==>
              timer == Some(u))
        && nextUringId == if timer.Some? then old(nextUringId) + 1 else old(nextUringId)
      ensures !e.AddReq? && (timer.None? || !ok) ==>
        submissions == old(submissions) && pendingUringEvents == old(pendingUringEvents)
      ensures e.UpdateReq? && timer.Some? && ok ==>
        && submissions == old(submissions) + [Update(old(nextUringId), timer.value)]
        && pendingUringEvents == old(pendingUringEvents)[old(nextUringId) := R.Pending(R.UpdateKind, e.reqId)]
      ensures e.StopReq? && timer.Some? && ok ==>
        && submissions == old(submissions) + [Cancel(old(nextUringId), timer.value)]
        && pendingUringEvents == old(pendingUringEvents)[old(nextUringId) := R.Pending(R.CancelKind, e.reqId)]
    {
      hide R.Inv, R.Next, R.Run, R.Valid;
      timer := None;
      AddedEffect(model, R.RequestAct(e, ok));
      match e {
        case AddReq(id, owner) => AddTimer(id, owner, ok);
        case UpdateReq(reqId, target) => timer := UpdateTimer(reqId, target, ok);
        case StopReq(reqId, target) => timer := CancelTimer(reqId, target, ok);
      }
    }

    /** The loop over the requests of one batch. */
    method HandleBatch(batch: seq<Request>, oks: seq<bool>)
      requires Valid() && R.FreshAdds(batch, model.added)
      modifies this
      ensures Valid() && sends == old(sends) && trace == old(trace) + BatchActs(batch, oks)
      ensures model.added == old(model.added) + R.AddsOf(batch)
      ensures |trace| == |old(trace)| + |batch|
      ensures forall i :: 0 <= i < |batch| ==>
        var ok, a := i < |oks| && oks[i], trace[|old(trace)| + i];
        match batch[i]
        case AddReq(id, owner) => a == R.DoAdd(id, owner, ok)
        case UpdateReq(reqId, target) => a == R.DoModify(R.UpdateKind, reqId, target, ok)
        case StopReq(reqId, target) => a == R.DoModify(R.CancelKind, reqId, target, ok)
    {
      hide R.Inv, R.Next, R.Enabled, R.Run, R.Valid;
      for i := 0 to |batch|
        invariant Valid() && sends == old(sends) && trace == old(trace) + BatchActs(batch, oks)[..i]
        invariant model.added == old(model.added) + R.AddsOf(batch[..i])
      {
        var ok := i < |oks| && oks[i];
        assert BatchActs(batch, oks)[i] == R.RequestAct(batch[i], ok);
        var _ := HandleRequest(batch[i], ok);
        R.AddsSnoc(batch[..i], batch[i]);
        assert batch[..i + 1] == batch[..i] + [batch[i]];
      }
      assert batch[..|batch|] == batch;
    }

    // ---- requests ----

    /** One request into the channel, or dropped when the receiver has gone. */
    twostate predicate Requested(e: Request)
      reads notifier
    {
      && notifier.State() == Accept(old(notifier.State()), e).(permits := notifier.notify)
      && if old(notifier.rxDisconnected) then notifier.notify == old(notifier.notify)
         else CanRelease(old(notifier.State()), notifier.notify)
    }

    /** `RequestTimerAdd`: `id` is the id `TimerEvent::NextId` issued to the request, and the caller is told it even if
      the request is dropped. */
    method RequestTimerAdd(id: TimerId, owner: nat) returns (issued: TimerId)
      requires Valid()
      modifies notifier
      ensures Valid() && Requested(AddReq(id, owner)) && issued == id
      ensures notifier.queue ==
        if old(notifier.rxDisconnected) then old(notifier.queue) else old(notifier.queue) + [AddReq(id, owner)]
      ensures if old(notifier.rxDisconnected) then notifier.notify == old(notifier.notify)
              else 1 <= notifier.notify <= old(notifier.notify) + 1
    {
      var _ := notifier.Send(AddReq(id, owner));
      issued := id;
    }

    method RequestTimerUpdate(reqId: TimerId, target: TimerId)
      requires Valid()
      modifies notifier
      ensures Valid() && Requested(UpdateReq(reqId, target))
      ensures notifier.queue ==
        if old(notifier.rxDisconnected) then old(notifier.queue) else old(notifier.queue) + [UpdateReq(reqId, target)]
      ensures if old(notifier.rxDisconnected) then notifier.notify == old(notifier.notify)
              else 1 <= notifier.notify <= old(notifier.notify) + 1
    {
      var _ := notifier.Send(UpdateReq(reqId, target));
    }

    method RequestTimerStop(reqId: TimerId, target: TimerId)
      requires Valid()
      modifies notifier
      ensures Valid() && Requested(StopReq(reqId, target))
      ensures notifier.queue ==
        if old(notifier.rxDisconnected) then old(notifier.queue) else old(notifier.queue) + [StopReq(reqId, target)]
      ensures if old(notifier.rxDisconnected) then notifier.notify == old(notifier.notify)
              else 1 <= notifier.notify <= old(notifier.notify) + 1
    {
      var _ := notifier.Send(StopReq(reqId, target));
    }

    method SendRequest(e: Request)
      requires Valid()
      modifies notifier
      ensures Valid() && Requested(e)
    {
      hide R.Inv, R.Next, R.Enabled, R.Run, R.Valid;
      match e {
        case AddReq(id, owner) => var _ := RequestTimerAdd(id, owner);
        case UpdateReq(reqId, target) => RequestTimerUpdate(reqId, target);
        case StopReq(reqId, target) => RequestTimerStop(reqId, target);
      }
    }

    /** Requests of other threads that come in one after the other: all of them are queued in order, or all dropped. */
    method Receive(incoming: seq<Request>)
      requires Valid()
      modifies notifier
      ensures Valid() && notifier.rxDisconnected == old(notifier.rxDisconnected)
      ensures notifier.queue ==
        if notifier.rxDisconnected then old(notifier.queue) else old(notifier.queue) + incoming
      ensures notifier.dropped ==
        if notifier.rxDisconnected then old(notifier.dropped) + incoming else old(notifier.dropped)
      ensures incoming == [] || notifier.rxDisconnected ==> notifier.notify == old(notifier.notify)
      ensures incoming != [] && !notifier.rxDisconnected ==> notifier.notify > 0
    {
      hide R.Inv, R.Next, R.Enabled, R.Run, R.Valid;
      for j := 0 to |incoming|
        invariant Valid() && notifier.rxDisconnected == old(notifier.rxDisconnected)
        invariant notifier.queue ==
          if notifier.rxDisconnected then old(notifier.queue) else old(notifier.queue) + incoming[..j]
        invariant notifier.dropped ==
          if notifier.rxDisconnected then old(notifier.dropped) + incoming[..j] else old(notifier.dropped)
        invariant if j == 0 || notifier.rxDisconnected then notifier.notify == old(notifier.notify)
                  else notifier.notify > 0
      {
        SendRequest(incoming[j]);
        assert incoming[..j + 1] == incoming[..j] + [incoming[j]];
      }
      assert incoming[..|incoming|] == incoming;
    }

    // ---- the loop ----

    /** One turn of `Run`: at most one completion, then everything the channel gives. The registry steps it takes are
      that completion and the requests of the batch, in order. A batch is all that was queued when the lock was taken,
      requests that came in after the permit was acquired included. */
    method Turn(t: Tick) returns (f: Found)
      requires Valid() && !notifier.rxDisconnected && R.FreshAdds(notifier.queue + t.between, model.added)
      modifies this, notifier
      ensures Valid() && !notifier.rxDisconnected && f.came == (t.u in old(uringTimers) || t.u in old(uringAcks))
      ensures trace == old(trace) + TurnActs(t, f)
      ensures f.came ==> |trace| > |old(trace)| && trace[|old(trace)|] == R.Cqe(t.u, t.res)
      ensures |trace| == |old(trace)| + (if f.came then 1 else 0) + |f.batch|
      ensures forall i :: 0 <= i < |f.batch| ==>
        var ok, a := i < |t.oks| && t.oks[i], trace[|old(trace)| + (if f.came then 1 else 0) + i];
        match f.batch[i]
        case AddReq(id, owner) => a == R.DoAdd(id, owner, ok)
        case UpdateReq(reqId, target) => a == R.DoModify(R.UpdateKind, reqId, target, ok)
        case StopReq(reqId, target) => a == R.DoModify(R.CancelKind, reqId, target, ok)
      ensures f.batch + notifier.queue == old(notifier.queue) + t.between
      ensures f.batch == if !t.expired && old(notifier.notify) > 0 then old(notifier.queue) + t.between else []
      ensures old(notifier.queue == [] || notifier.notify > 0) ==> notifier.queue == [] || notifier.notify > 0
      ensures model.added == old(model.added) + R.AddsOf(f.batch)
    {
      hide R.Inv, R.Next, R.Enabled, R.Run, R.Valid, R.FreshAdds, R.AddsOf, BatchActs;
      var came, claimed := CompletionStep(t.u, t.res);
      ghost var mid := trace;
      var batch := TakeRequests(t.expired, t.between);
      NoneAreFresh(model.added);
      HandleBatch(batch, t.oks);
      f := Found(came, batch);
      TurnActsAre(old(trace), mid, trace, t, f);
    }

    /** `tryReceiveMany`, with requests coming in after the permit is acquired. */
    method TakeRequests(expired: bool, between: seq<Request>) returns (batch: seq<Request>)
      requires Valid() && !notifier.rxDisconnected
      modifies notifier
      ensures Valid() && !notifier.rxDisconnected && batch + notifier.queue == old(notifier.queue) + between
      ensures batch == if !expired && old(notifier.notify) > 0 then old(notifier.queue) + between else []
      ensures old(notifier.queue == [] || notifier.notify > 0) ==> notifier.queue == [] || notifier.notify > 0
    {
      hide R.Inv, R.Next, R.Enabled, R.Run, R.Valid;
      var acquired := notifier.TryAcquire(expired);
      Receive(between);
      batch := [];
      if acquired {
        batch := notifier.SwapSection();
      }
    }

    /** `Run`, for as many turns as the schedule has or until the loop finds its stop token set: then it makes no more turn
      and the receiver is destroyed. The registry steps taken are exactly those of the turns made, in order. A turn has
      the completion the kernel had for it, and takes everything that was sent up to then or nothing; it takes nothing
      only when its wait gave up, or when nothing was there to wake it. */
    method Run(ticks: seq<Tick>) returns (found: seq<Found>, stopped: bool)
      requires Valid() && !notifier.rxDisconnected && R.FreshAdds(notifier.queue + Incoming(ticks), model.added)
      modifies this, notifier
      ensures Valid() && |found| <= |ticks| && trace == old(trace) + RunActs(ticks, found)
      ensures Handled(found) + notifier.queue == old(notifier.queue) + Incoming(ticks[..|found|])
      ensures forall i :: 0 <= i < |found| ==>
        var acts := old(trace) + RunActs(ticks, found[..i]);
        && R.Valid(R.Init(), acts)
        && var s := R.Run(R.Init(), acts); (found[i].came <==> ticks[i].u in s.timers || ticks[i].u in s.acks)
      ensures forall i :: 0 <= i < |found| ==>
        && (ticks[i].expired ==> found[i].batch == [])
        && (found[i].batch == [] ||
            Handled(found[..i]) + found[i].batch ==
            old(notifier.queue) + Incoming(ticks[..i]) + ticks[i].incoming + ticks[i].between)
      ensures old(notifier.queue == [] || notifier.notify > 0) ==> forall i :: 0 <= i < |found| && !ticks[i].expired ==>
        old(notifier.queue) + Incoming(ticks[..i]) + ticks[i].incoming <= Handled(found[..i]) + found[i].batch
      ensures stopped == notifier.rxDisconnected && (stopped <==> |found| < |ticks|)
      ensures stopped ==> ticks[|found|].stop
      ensures forall i :: 0 <= i < |found| ==> !ticks[i].stop
    {
      ghost var q, ready := notifier.queue, notifier.queue == [] || notifier.notify > 0;
      StartOfTurns(trace, q, ready, ticks);
      hide R.Inv, R.Next, R.Enabled, R.Run, R.Valid, R.FreshAdds, RunActs, Handled, Incoming;
      found := TurnsUntilStop(trace, q, ready, ticks);
      stopped := |found| < |ticks|;
      if stopped {
        notifier.Disconnect();
      }
    }

    /** Where the loop stands after the turns `found`. */
    ghost predicate Between(front: seq<R.Act>, q: seq<Request>, ready: bool, ticks: seq<Tick>, found: seq<Found>)
      reads this, notifier
    {
      && Valid() && !notifier.rxDisconnected && |found| <= |ticks| && trace == front + RunActs(ticks, found)
      && Handled(found) + notifier.queue == q + Incoming(ticks[..|found|])
      && TurnsAre(front, q, ready, ticks, found) && (ready ==> notifier.queue == [] || notifier.notify > 0)
      && R.FreshAdds(notifier.queue + Incoming(ticks[|found|..]), model.added)
      && forall i :: 0 <= i < |found| ==> !ticks[i].stop
    }

    /** The loop of `Run`. */
    method TurnsUntilStop(ghost front: seq<R.Act>, ghost q: seq<Request>, ghost ready: bool, ticks: seq<Tick>)
      returns (found: seq<Found>)
      requires Between(front, q, ready, ticks, [])
      modifies this, notifier
      ensures Between(front, q, ready, ticks, found) && |found| <= |ticks|
      ensures |found| < |ticks| ==> ticks[|found|].stop
    {
      hide *;
      found := [];
      while |found| < |ticks| && !ticks[|found|].stop
        invariant |found| <= |ticks| && Between(front, q, ready, ticks, found)
        decreases |ticks| - |found|
      {
        found := OneMoreTurn(front, q, ready, ticks, found);
      }
    }

    /** One round of that loop. */
    method OneMoreTurn(ghost front: seq<R.Act>, ghost q: seq<Request>, ghost ready: bool, ticks: seq<Tick>,
                       found: seq<Found>)
      returns (more: seq<Found>)
      requires |found| < |ticks| && !ticks[|found|].stop && Between(front, q, ready, ticks, found)
      modifies this, notifier
      ensures |more| == |found| + 1 && Between(front, q, ready, ticks, more)
    {
      hide R.Inv, R.Next, R.Enabled, R.Run, R.Valid, R.FreshAdds, RunActs, TurnActs, Handled, Incoming, TurnsAre, TurnIs;
      var f := NextTurn(q, ready, ticks, found);
      TurnsSnoc(front, ticks, found, f);
      TurnsAreOn(front, q, ready, ticks, found, f);
      more := found + [f];
    }

    /** The turn after those in `found`. */
    method NextTurn(ghost q: seq<Request>, ghost ready: bool, ticks: seq<Tick>, found: seq<Found>)
      returns (f: Found)
      requires Valid() && !notifier.rxDisconnected && |found| < |ticks|
      requires Handled(found) + notifier.queue == q + Incoming(ticks[..|found|])
      requires ready ==> notifier.queue == [] || notifier.notify > 0
      requires R.FreshAdds(notifier.queue + Incoming(ticks[|found|..]), model.added)
      modifies this, notifier
      ensures Valid() && !notifier.rxDisconnected && trace == old(trace) + TurnActs(ticks[|found|], f)
      ensures TurnIs(old(trace), Handled(found), q + Incoming(ticks[..|found|]), ready, ticks[|found|], f)
      ensures Handled(found) + f.batch + notifier.queue == q + Incoming(ticks[..|found| + 1])
      ensures ready ==> notifier.queue == [] || notifier.notify > 0
      ensures R.FreshAdds(notifier.queue + Incoming(ticks[|found| + 1..]), model.added)
    {
      hide R.Inv, R.Next, R.Enabled, R.Run, R.Valid, R.FreshAdds, TurnActs, Handled, Incoming;
      ghost var before := notifier.queue;
      var n := |found|;
      NextIncoming(before, ticks, n);
      f := ReceiveAndTurn(ticks[n], Incoming(ticks[n + 1..]));
      TurnAccounts(Handled(found), before, q + Incoming(ticks[..n]), ticks[n].incoming, ticks[n].between, f.batch,
        notifier.queue);
      SentSoFar(q, ticks, n);
    }

    /** Requests come in, and the loop makes a turn. */
    method ReceiveAndTurn(t: Tick, ghost rest: seq<Request>) returns (f: Found)
      requires Valid() && !notifier.rxDisconnected
      requires R.FreshAdds(notifier.queue + t.incoming + t.between + rest, model.added)
      modifies this, notifier
      ensures Valid() && !notifier.rxDisconnected && trace == old(trace) + TurnActs(t, f)
      ensures f.came == (t.u in old(uringTimers) || t.u in old(uringAcks))
      ensures f.batch + notifier.queue == old(notifier.queue) + t.incoming + t.between
      ensures f.batch == [] || notifier.queue == []
      ensures t.expired ==> f.batch == []
      ensures old(notifier.queue == [] || notifier.notify > 0) ==>
        && (notifier.queue == [] || notifier.notify > 0)
        && (!t.expired ==> old(notifier.queue) + t.incoming <= f.batch)
      ensures R.FreshAdds(notifier.queue + rest, model.added)
    {
      hide R.Inv, R.Next, R.Enabled, R.Run, R.Valid, R.FreshAdds, TurnActs;
      ghost var q, added := notifier.queue + t.incoming + t.between, model.added;
      Receive(t.incoming);
      R.FreshSplit(q, rest, added);
      f := Turn(t);
      Associates(f.batch, notifier.queue, rest);
      R.FreshSplit(f.batch, notifier.queue + rest, added);
    }
  }

  lemma NoneAreFresh(added: set<TimerId>)
    ensures R.FreshAdds([], added)
  {
  }

  lemma TurnActsAre(before: seq<R.Act>, mid: seq<R.Act>, after: seq<R.Act>, t: Tick, f: Found)
    requires mid == if f.came then before + [R.Cqe(t.u, t.res)] else before
    requires after == mid + BatchActs(f.batch, t.oks)
    ensures after == before + TurnActs(t, f)
  {
    hide BatchActs;
  }

  lemma StartOfTurns(front: seq<R.Act>, q: seq<Request>, ready: bool, ticks: seq<Tick>)
    ensures front == front + RunActs(ticks, []) && Handled([]) + q == q + Incoming(ticks[..0])
    ensures q + Incoming(ticks[0..]) == q + Incoming(ticks) && TurnsAre(front, q, ready, ticks, [])
  {
    assert ticks[0..] == ticks;
  }

  /** The account of a turn: what was handled and queued before it is what was sent before it. */
  lemma TurnAccounts(handled: seq<Request>, before: seq<Request>, sent: seq<Request>, incoming: seq<Request>,
                     between: seq<Request>, batch: seq<Request>, left: seq<Request>)
    requires handled + before == sent && batch + left == before + incoming + between
    ensures handled + batch + left == sent + incoming + between
    ensures left == [] ==> handled + batch == sent + incoming + between
    ensures before + incoming <= batch ==> sent + incoming <= handled + batch
  {
    Associates(handled, batch, left);
    Associates(handled, before + incoming, between);
    Associates(handled, before, incoming);
    if before + incoming <= batch {
      assert batch == before + incoming + batch[|before + incoming|..];
      Associates(handled, before + incoming, batch[|before + incoming|..]);
    }
  }

  lemma SentSoFar(q: seq<Request>, ticks: seq<Tick>, n: nat)
    requires n < |ticks|
    ensures q + Incoming(ticks[..n + 1]) == q + Incoming(ticks[..n]) + ticks[n].incoming + ticks[n].between
  {
    hide Incoming;
    assert ticks[..n] + [ticks[n]] == ticks[..n + 1];
    IncomingSnoc(ticks[..n], ticks[n]);
    Associates(q, Incoming(ticks[..n]) + ticks[n].incoming, ticks[n].between);
    Associates(q, Incoming(ticks[..n]), ticks[n].incoming);
  }

  lemma {:induction false} IncomingSnoc(ticks: seq<Tick>, t: Tick)
    ensures Incoming(ticks + [t]) == Incoming(ticks) + t.incoming + t.between
  {
    if |ticks| == 0 {
    } else {
      IncomingSnoc(ticks[1..], t);
      assert (ticks + [t])[1..] == ticks[1..] + [t];
      var first, rest := ticks[0].incoming + ticks[0].between, Incoming(ticks[1..]);
      Associates(first, rest + t.incoming, t.between);
      Associates(first, rest, t.incoming);
    }
  }

  /** What a turn finds: `acts` are the registry steps before it, `handled` and `sent` the requests handled and sent
    before it, and `ready` says that no request was ever queued without a permit. */
  ghost predicate TurnIs(acts: seq<R.Act>, handled: seq<Request>, sent: seq<Request>, ready: bool, t: Tick, f: Found) {
    && R.Valid(R.Init(), acts)
    && (var s := R.Run(R.Init(), acts); (f.came <==> t.u in s.timers || t.u in s.acks))
    && (t.expired ==> f.batch == [])
    && (f.batch == [] || handled + f.batch == sent + t.incoming + t.between)
    && (ready && !t.expired ==> sent + t.incoming <= handled + f.batch)
  }

  ghost predicate TurnsAre(front: seq<R.Act>, q: seq<Request>, ready: bool, ticks: seq<Tick>, found: seq<Found>) {
    && |found| <= |ticks|
    && forall i :: 0 <= i < |found| ==>
         TurnIs(front + RunActs(ticks, found[..i]), Handled(found[..i]), q + Incoming(ticks[..i]), ready, ticks[i],
           found[i])
  }

  lemma TurnsAreOn(front: seq<R.Act>, q: seq<Request>, ready: bool, ticks: seq<Tick>, found: seq<Found>, f: Found)
    requires |found| < |ticks| && TurnsAre(front, q, ready, ticks, found)
    requires TurnIs(front + RunActs(ticks, found), Handled(found), q + Incoming(ticks[..|found|]), ready,
               ticks[|found|], f)
    ensures TurnsAre(front, q, ready, ticks, found + [f])
  {
    hide TurnIs, RunActs, Handled, Incoming;
    var found' := found + [f];
    assert found'[..|found|] == found;
    forall i | 0 <= i < |found| ensures found'[..i] == found[..i] && found'[i] == found[i] {
    }
  }

  lemma NextIncoming(q: seq<Request>, ticks: seq<Tick>, i: nat)
    requires i < |ticks|
    ensures q + Incoming(ticks[i..]) == q + ticks[i].incoming + ticks[i].between + Incoming(ticks[i + 1..])
  {
    assert ticks[i..][1..] == ticks[i + 1..];
  }
}
