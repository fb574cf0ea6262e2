/** The timer registry of src/timers/timer_thread.cpp: two maps driven by requests and by kernel completions, and the
  kernel that sends the completions. */
module Registry {
  import opened Events

  // Completion results the code tells apart, as negated error numbers.
  const ETIME: int := 62
  const ECANCELED: int := 125

  /** The three event classes. Only the first stays in the map when it completes (`m_removeOnComplete` is false). */
  datatype Kind = TimerKind | UpdateKind | CancelKind

  /** `timerId` is the timer's own id for the first kind and the request's id for the other two. */
  datatype Pending = Pending(kind: Kind, timerId: TimerId)

  /** `nextUring` is the id counter, `pending` is `m_pendingUringEvents`, `txs` is `m_txs` with the owning thread for
    the sender handle. */
  datatype Maps = Maps(nextUring: nat, pending: map<nat, Pending>, txs: map<TimerId, nat>)

  predicate IsTimer(r: Maps, u: nat, id: TimerId) {
    u in r.pending && r.pending[u] == Pending(TimerKind, id)
  }

  ghost predicate Known(r: Maps, id: TimerId) {
    exists u :: IsTimer(r, u, id)
  }

  /** `AddTimer`; `ok` is whether the kernel accepted the submission. The event id is used up either way. */
  function Add(r: Maps, id: TimerId, owner: nat, ok: bool): Maps {
    if !ok then r.(nextUring := r.nextUring + 1)
    else Maps(r.nextUring + 1, r.pending[r.nextUring := Pending(TimerKind, id)], r.txs[id := owner])
  }

  /** `UpdateTimer` and `CancelTimer`. A request for a timer that is not found uses up no event id. */
  ghost function Modify(r: Maps, kind: Kind, reqId: TimerId, target: TimerId, ok: bool): Maps {
    if !Known(r, target) then r
    else r.(nextUring := r.nextUring + 1,
            pending := if ok then r.pending[r.nextUring := Pending(kind, reqId)] else r.pending)
  }

  /** What the `Run` loop does with one completion. */
  function Complete(r: Maps, u: nat, res: int): Maps {
    if u !in r.pending then r
    else if !r.pending[u].kind.TimerKind? then r.(pending := r.pending - {u})
    else if res == -ECANCELED then r.(txs := r.txs - {r.pending[u].timerId})
    else r
  }

  /** The completion sends an expiry to the thread that `txs` names. */
  predicate Sends(r: Maps, u: nat, res: int) {
    u in r.pending && r.pending[u].kind.TimerKind? && r.pending[u].timerId in r.txs && res == -ETIME
  }

  // ---- runs: requests and completions in any order ----

  /** The registry with the kernel. `timers` and `acks` are the submissions that may still complete: a timer any number
    of times, an update or a cancel once. The rest is history: ids ever added, ids whose submission failed, successful
    submissions of timers and of updates and cancels, completions of the latter, completions whose lookup failed, and
    the expiries sent, in order. */
  datatype Sys = Sys(
    maps: Maps,
    timers: set<nat>,
    acks: set<nat>,
    added: set<TimerId>,
    failed: set<TimerId>,
    adds: nat,
    mods: nat,
    modsDone: nat,
    unclaimed: nat,
    sent: seq<TimerId>)

  datatype Act =
    | DoAdd(id: TimerId, owner: nat, ok: bool)
    | DoModify(kind: Kind, reqId: TimerId, target: TimerId, ok: bool)
    | Cqe(u: nat, res: int)

  /** The registry step that handling a request is. */
  function RequestAct(e: Request, ok: bool): Act {
    match e
    case AddReq(id, owner) => DoAdd(id, owner, ok)
    case UpdateReq(reqId, target) => DoModify(UpdateKind, reqId, target, ok)
    case StopReq(reqId, target) => DoModify(CancelKind, reqId, target, ok)
  }

  function Init(): Sys {
    Sys(Maps(0, map[], map[]), {}, {}, {}, {}, 0, 0, 0, 0, [])
  }

  /** Ids are issued once, and the kernel completes only what was submitted. A failed submission leaves nothing
    behind. */
  predicate Enabled(s: Sys, a: Act) {
    match a
    case DoAdd(id, _, _) => id !in s.added
    case DoModify(kind, _, _, _) => !kind.TimerKind?
    case Cqe(u, _) => u in s.timers || u in s.acks
  }

  ghost function Next(s: Sys, a: Act): Sys
    requires Enabled(s, a)
  {
    match a
    case DoAdd(id, owner, ok) =>
      var t := s.(maps := Add(s.maps, id, owner, ok), added := s.added + {id});
      if ok then t.(timers := s.timers + {s.maps.nextUring}, adds := s.adds + 1) else t.(failed := s.failed + {id})
    case DoModify(kind, reqId, target, ok) =>
      var t := s.(maps := Modify(s.maps, kind, reqId, target, ok));
      if Known(s.maps, target) && ok then t.(acks := s.acks + {s.maps.nextUring}, mods := s.mods + 1) else t
    case Cqe(u, res) =>
      s.(maps := Complete(s.maps, u, res),
         acks := s.acks - {u},
         modsDone := s.modsDone + (if u in s.acks then 1 else 0),
         unclaimed := s.unclaimed + (if u in s.maps.pending then 0 else 1),
         sent := if Sends(s.maps, u, res) then s.sent + [s.maps.pending[u].timerId] else s.sent)
  }

  ghost predicate Valid(s: Sys, acts: seq<Act>)
    decreases |acts|, 0
  {
    |acts| == 0 ||
    var n := |acts| - 1;
    Valid(s, acts[..n]) && Enabled(Run(s, acts[..n]), acts[n])
  }

  ghost function Run(s: Sys, acts: seq<Act>): Sys
    requires Valid(s, acts)
    decreases |acts|, 1
  {
    if |acts| == 0 then s else
    var n := |acts| - 1;
    Next(Run(s, acts[..n]), acts[n])
  }

  lemma RunSnoc(s: Sys, acts: seq<Act>, a: Act)
    requires Valid(s, acts) && Enabled(Run(s, acts), a)
    ensures Valid(s, acts + [a]) && Run(s, acts + [a]) == Next(Run(s, acts), a)
  {
  }

  // ---- the requests that carry new ids ----

  function AddsOf(q: seq<Request>): set<TimerId> {
    set i | 0 <= i < |q| && q[i].AddReq? :: q[i].id
  }

  /** Timer ids are issued once: adding the requests of `q` in order never repeats an id. */
  predicate FreshAdds(q: seq<Request>, added: set<TimerId>) {
    && (forall i :: 0 <= i < |q| && q[i].AddReq? ==> q[i].id !in added)
    && (forall i, j :: 0 <= i < j < |q| && q[i].AddReq? && q[j].AddReq? ==> q[i].id != q[j].id)
  }

  lemma FreshSplit(q: seq<Request>, rest: seq<Request>, added: set<TimerId>)
    requires FreshAdds(q + rest, added)
    ensures FreshAdds(q, added) && FreshAdds(rest, added + AddsOf(q))
  {
    forall i | 0 <= i < |q| ensures (q + rest)[i] == q[i] {
    }
    forall i | 0 <= i < |rest| ensures (q + rest)[|q| + i] == rest[i] {
    }
  }

  lemma AddsSnoc(q: seq<Request>, e: Request)
    ensures AddsOf(q + [e]) == AddsOf(q) + if e.AddReq? then {e.id} else {}
  {
    var r := q + [e];
    assert forall i :: 0 <= i < |q| ==> r[i] == q[i];
    assert r[|q|] == e;
  }

  // ---- the registry invariant ----

  ghost predicate KeysInv(s: Sys) {
    var p := s.maps.pending;
    && p.Keys == s.timers + s.acks
    && (forall u :: u in p ==> u < s.maps.nextUring && (u in s.timers <==> p[u].kind.TimerKind?))
    && s.timers !! s.acks
  }

  ghost predicate TimersInv(s: Sys) {
    && (forall id :: id in s.maps.txs ==> Known(s.maps, id))
    && (forall u, v, id :: IsTimer(s.maps, u, id) && IsTimer(s.maps, v, id) ==> u == v)
    && (forall u, id :: IsTimer(s.maps, u, id) ==> id in s.added)
    && (forall id :: id in s.added ==> id in s.failed || Known(s.maps, id))
  }

  ghost predicate CountsInv(s: Sys) {
    |s.timers| == s.adds && |s.acks| + s.modsDone == s.mods && s.unclaimed == 0
  }

  ghost predicate Inv(s: Sys) {
    KeysInv(s) && TimersInv(s) && CountsInv(s)
  }

  /** Completions and updates never make a timer unknown: its entry is never erased. */
  lemma StepKeepsTimers(s: Sys, a: Act, u: nat, id: TimerId)
    requires KeysInv(s) && Enabled(s, a) && IsTimer(s.maps, u, id)
    ensures IsTimer(Next(s, a).maps, u, id)
  {
  }

  lemma StepKeepsKnown(s: Sys, a: Act, id: TimerId)
    requires KeysInv(s) && Enabled(s, a) && Known(s.maps, id)
    ensures Known(Next(s, a).maps, id)
  {
    var u :| IsTimer(s.maps, u, id);
    StepKeepsTimers(s, a, u, id);
  }

  lemma StepKeepsKeysInv(s: Sys, a: Act)
    requires KeysInv(s) && Enabled(s, a)
    ensures KeysInv(Next(s, a))
  {
  }

  /** The timers a step leaves are the ones that were there, and the one a successful Add brings. */
  lemma TimersAfterStep(s: Sys, a: Act, u: nat, id: TimerId)
    requires KeysInv(s) && Enabled(s, a) && IsTimer(Next(s, a).maps, u, id)
    ensures IsTimer(s.maps, u, id) || (a.DoAdd? && a.ok && a.id == id && u == s.maps.nextUring)
  {
  }

  lemma StepKeepsTimersInv(s: Sys, a: Act)
    requires KeysInv(s) && TimersInv(s) && Enabled(s, a)
    ensures TimersInv(Next(s, a))
  {
    var t := Next(s, a);
    forall id | id in t.maps.txs ensures Known(t.maps, id) {
      KnownAfterStep(s, a, id);
    }
    forall id | id in t.added && id !in t.failed ensures Known(t.maps, id) {
      KnownAfterStep(s, a, id);
    }
    forall u, v, id | IsTimer(t.maps, u, id) && IsTimer(t.maps, v, id) ensures u == v {
      TimersAfterStep(s, a, u, id);
      TimersAfterStep(s, a, v, id);
    }
    forall u, id | IsTimer(t.maps, u, id) ensures id in t.added {
      TimersAfterStep(s, a, u, id);
    }
  }

  lemma KnownAfterStep(s: Sys, a: Act, id: TimerId)
    requires KeysInv(s) && Enabled(s, a) && (Known(s.maps, id) || (a.DoAdd? && a.id == id && a.ok))
    ensures Known(Next(s, a).maps, id)
  {
    if Known(s.maps, id) {
      StepKeepsKnown(s, a, id);
    } else {
      assert IsTimer(Next(s, a).maps, s.maps.nextUring, id);
    }
  }

  lemma StepKeepsCounts(s: Sys, a: Act)
    requires CountsInv(s) && Enabled(s, a) && s.maps.nextUring !in s.timers && s.maps.nextUring !in s.acks
    requires a.Cqe? ==> a.u in s.maps.pending
    ensures CountsInv(Next(s, a))
  {
  }

  lemma StepKeepsCountsInv(s: Sys, a: Act)
    requires KeysInv(s) && CountsInv(s) && Enabled(s, a)
    ensures CountsInv(Next(s, a))
  {
    hide Next, CountsInv;
    assert s.maps.nextUring !in s.maps.pending.Keys;
    assert a.Cqe? ==> a.u in s.maps.pending.Keys;
    StepKeepsCounts(s, a);
  }

  lemma StepKeepsInv(s: Sys, a: Act)
    requires Inv(s) && Enabled(s, a)
    ensures Inv(Next(s, a))
  {
    StepKeepsKeysInv(s, a);
    StepKeepsTimersInv(s, a);
    StepKeepsCountsInv(s, a);
  }

  lemma {:induction false} RunKeepsInv(s: Sys, acts: seq<Act>)
    requires Inv(s) && Valid(s, acts)
    ensures Inv(Run(s, acts))
  {
    if |acts| == 0 {
    } else {
      var n := |acts| - 1;
      RunKeepsInv(s, acts[..n]);
      StepKeepsInv(Run(s, acts[..n]), acts[n]);
    }
  }

  /** Over all sequences of requests and completions: every sender handle belongs to a pending timer, no two pending
    timers share an id, and a timer that was submitted stays findable whatever completes in between. */
  lemma RegistryIsConsistent(acts: seq<Act>)
    requires Valid(Init(), acts)
    ensures var s := Run(Init(), acts);
      && (forall id :: id in s.maps.txs ==> Known(s.maps, id))
      && (forall u, v, id :: IsTimer(s.maps, u, id) && IsTimer(s.maps, v, id) ==> u == v)
      && (forall id :: id in s.added ==> (id in s.failed || Known(s.maps, id)))
  {
    RunKeepsInv(Init(), acts);
  }

  /** Over all sequences: no completion's lookup ever fails, and the map holds exactly the successful adds and the
    updates and cancels not yet completed. */
  lemma EveryCompletionIsClaimed(acts: seq<Act>)
    requires Valid(Init(), acts)
    ensures var s := Run(Init(), acts);
      && s.unclaimed == 0
      && s.maps.pending.Keys == s.timers + s.acks
      && |s.maps.pending| == s.adds + s.mods - s.modsDone
  {
    RunKeepsInv(Init(), acts);
    var s := Run(Init(), acts);
    assert |s.maps.pending| == |s.maps.pending.Keys| == |s.timers| + |s.acks|;
  }

  // ---- silence after a cancel is seen ----

  lemma StepStaysSilent(s: Sys, a: Act, id: TimerId)
    requires Enabled(s, a) && id in s.added && id !in s.maps.txs
    ensures var t := Next(s, a); id in t.added && id !in t.maps.txs
    ensures Next(s, a).sent == s.sent || exists x :: x != id && Next(s, a).sent == s.sent + [x]
  {
  }

  lemma {:induction false} RunStaysSilent(s: Sys, acts: seq<Act>, id: TimerId)
    requires Valid(s, acts) && id in s.added && id !in s.maps.txs
    ensures var t := Run(s, acts);
      id in t.added && id !in t.maps.txs && s.sent <= t.sent && id !in t.sent[|s.sent|..]
  {
    if |acts| == 0 {
    } else {
      var n := |acts| - 1;
      RunStaysSilent(s, acts[..n], id);
      StepStaysSilent(Run(s, acts[..n]), acts[n], id);
    }
  }

  /** Once a timer's completion has reported it cancelled, no expiry for that id is sent again, for any later
    requests and completions. */
  lemma SilentAfterCancellation(s: Sys, u: nat, id: TimerId, acts: seq<Act>)
    requires Inv(s) && IsTimer(s.maps, u, id) && Enabled(s, Cqe(u, -125))
    requires Valid(Next(s, Cqe(u, -125)), acts)
    ensures var t := Run(Next(s, Cqe(u, -125)), acts); s.sent <= t.sent && id !in t.sent[|s.sent|..]
  {
    RunStaysSilent(Next(s, Cqe(u, -125)), acts, id);
  }
}
