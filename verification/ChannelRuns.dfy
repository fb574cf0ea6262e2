/** The channel in motion: one receiver and any number of senders and flushers, interleaved step by step.

  A step is a locked section, a semaphore operation, or a move that only its own thread sees. `Enabled` and `Next`
  give the step relation; a run is a sequence of enabled steps. */
module ChannelRuns {
  import opened Channel

  /** Where a thread stands inside `Tx::send` or `Tx::flushAndSend`. */
  datatype SenderPc<T> =
    | WantsSend(value: T)
    | WantsFlush(value: T)
    | Releasing  // the event is in the queue, the mutex is dropped, the permit is not yet released

  /** Where the receiving thread stands in its loop. */
  datatype RxPc<T> =
    | Idle  // no permit held, no batch in hand
    | Holding  // permit acquired, mutex not yet taken
    | Passing(rest: seq<T>, left: nat)  // `rest` of the batch is still to be delivered; `left` stayed in the queue
    | Dropped  // the receiver is destroyed

  datatype Sys<T> = Sys(core: Core<T>, senders: map<nat, SenderPc<T>>, rx: RxPc<T>, delivered: seq<T>)

  datatype Act<T> =
    | BeginSend(c: nat, v: T)
    | BeginFlush(c: nat, v: T)
    | Section(c: nat)  // the locked section of whichever call sender `c` is in
    | Release(c: nat, to: nat)
    | Extra(to: nat)  // a release with no event behind it: the stop callback, or a destroyed `Tx`
    | Acquire
    | Timeout
    | Take(max: nat)
    | Deliver
    | EndPass(to: nat)  // `wakeImmediately` when events were left behind, else nothing
    | Disconnect

  function Init<T>(): Sys<T> {
    Sys(Core(0, [], false, [], [], []), map[], Idle, [])
  }

  predicate Enabled<T>(s: Sys<T>, a: Act<T>) {
    match a
    case BeginSend(c, _) => c !in s.senders
    case BeginFlush(c, _) => c !in s.senders
    case Section(c) => c in s.senders && !s.senders[c].Releasing?
    case Release(c, to) => c in s.senders && s.senders[c].Releasing? && CanRelease(s.core, to)
    case Extra(to) => CanRelease(s.core, to)
    case Acquire => s.rx.Idle? && s.core.permits > 0
    case Timeout => s.rx.Idle?
    case Take(_) => s.rx.Holding?
    case Deliver => s.rx.Passing? && |s.rx.rest| > 0
    case EndPass(to) => s.rx.Passing? && |s.rx.rest| == 0 && (s.rx.left > 0 ==> CanRelease(s.core, to))
    case Disconnect => s.rx.Idle?
  }

  function Next<T>(s: Sys<T>, a: Act<T>): Sys<T>
    requires Enabled(s, a)
  {
    match a
    case BeginSend(c, v) => s.(senders := s.senders[c := WantsSend(v)])
    case BeginFlush(c, v) => s.(senders := s.senders[c := WantsFlush(v)])
    case Section(c) =>
      // a refused event ends the call at once, without a release
      s.(core := match s.senders[c] case WantsSend(v) => Accept(s.core, v) case WantsFlush(v) => FlushAccept(s.core, v),
         senders := if s.core.disconnected then s.senders - {c} else s.senders[c := Releasing])
    case Release(c, to) => s.(core := s.core.(permits := to), senders := s.senders - {c})
    case Extra(to) => s.(core := s.core.(permits := to))
    case Acquire => s.(core := s.core.(permits := s.core.permits - 1), rx := Holding)
    case Timeout => s
    case Take(max) =>
      var n := BatchSize(s.core, max);
      // an empty batch returns before the left-over check
      s.(core := Taken(s.core, max), rx := if n == 0 then Idle else Passing(s.core.queue[..n], |s.core.queue| - n))
    case Deliver => s.(rx := s.rx.(rest := s.rx.rest[1..]), delivered := s.delivered + [s.rx.rest[0]])
    case EndPass(to) =>
      s.(core := if s.rx.left > 0 then s.core.(permits := to) else s.core, rx := Idle)
    case Disconnect => s.(core := s.core.(disconnected := true), rx := Dropped)
  }

  predicate Valid<T>(s: Sys<T>, acts: seq<Act<T>>)
    decreases |acts|
  {
    |acts| == 0 || (Enabled(s, acts[0]) && Valid(Next(s, acts[0]), acts[1..]))
  }

  function Run<T>(s: Sys<T>, acts: seq<Act<T>>): Sys<T>
    requires Valid(s, acts)
    decreases |acts|
  {
    if |acts| == 0 then s else Run(Next(s, acts[0]), acts[1..])
  }

  /** The batch the receiver has taken and not yet delivered. */
  function InFlight<T>(s: Sys<T>): seq<T> {
    if s.rx.Passing? then s.rx.rest else []
  }

  /** Delivered, then in flight, then queued. */
  function Stream<T>(s: Sys<T>): seq<T> {
    s.delivered + InFlight(s) + s.core.queue
  }

  /** Every pass asks for at least one event. */
  predicate Positive<T>(a: Act<T>) {
    a.Take? ==> a.max > 0
  }

  predicate AllPositive<T>(acts: seq<Act<T>>) {
    forall i :: 0 <= i < |acts| ==> Positive(acts[i])
  }

  // ---- first in, first out, with flush ----

  ghost predicate Fifo<T>(s: Sys<T>) {
    && |s.core.log| == |s.core.marks|
    && Kept(s.core.log, s.core.marks) == Stream(s)
    && (s.core.disconnected <==> s.rx.Dropped?)
  }

  lemma SectionKeepsFifo<T>(s: Sys<T>, c: nat)
    requires Fifo(s) && Enabled(s, Section(c))
    ensures Fifo(Next(s, Section(c)))
  {
    var k := s.core;
    if !k.disconnected {
      var v := s.senders[c].value;
      KeptSnoc(k.log, k.marks, v);
      if s.senders[c].WantsFlush? {
        FlushRemovesExactlyTheLast(k.log, k.marks, |k.queue|);
        KeptSnoc(k.log, MarkLast(k.marks, |k.queue|), v);
      }
    }
  }

  lemma StepKeepsFifo<T>(s: Sys<T>, a: Act<T>)
    requires Fifo(s) && Enabled(s, a)
    ensures Fifo(Next(s, a))
  {
    if a.Section? {
      SectionKeepsFifo(s, a.c);
    } else {
      assert Stream(Next(s, a)) == Stream(s);
    }
  }

  /** A flush discards exactly the events that are queued at that moment: those in flight or delivered stay. */
  lemma FlushDiscardsExactlyTheQueue<T>(s: Sys<T>, c: nat)
    requires Fifo(s) && Enabled(s, Section(c)) && s.senders[c].WantsFlush? && !s.core.disconnected
    ensures var k, k' := s.core, Next(s, Section(c)).core;
      && Kept(k'.log, k'.marks) == s.delivered + InFlight(s) + [s.senders[c].value]
      && multiset(Discarded(k'.log, k'.marks)) == multiset(Discarded(k.log, k.marks)) + multiset(k.queue)
  {
    var k, n := s.core, |s.core.queue|;
    SectionKeepsFifo(s, c);
    FlushDiscardsExactlyTheLast(k.log, k.marks, n, s.delivered + InFlight(s), k.queue);
    KeptSnoc(k.log, MarkLast(k.marks, n), s.senders[c].value);
  }

  /** What a step does to the stream of events and to the history. */
  lemma StreamAfter<T>(s: Sys<T>, a: Act<T>)
    requires Enabled(s, a)
    ensures var k, t := s.core, Next(s, a);
      && t.delivered == s.delivered + (if a.Deliver? then [s.rx.rest[0]] else [])
      && (if a.Section? && k.disconnected then
            Stream(t) == Stream(s) && t.core.log == k.log && t.core.dropped == k.dropped + [s.senders[a.c].value]
          else if a.Section? then
            t.core.dropped == k.dropped && t.core.log == k.log + [s.senders[a.c].value] &&
            Stream(t) ==
              (if s.senders[a.c].WantsSend? then Stream(s) else s.delivered + InFlight(s)) + [s.senders[a.c].value]
          else Stream(t) == Stream(s) && t.core.log == k.log && t.core.dropped == k.dropped)
  {
  }

  // ---- no lost wake-up ----

  /** Someone is bound to look at the queue: a permit is there, a sender has yet to release one, the receiver holds
    one and has not drained, or the receiver left events behind and still owes itself a wake-up. */
  ghost predicate Awake<T>(s: Sys<T>) {
    || s.core.permits > 0
    || (exists c :: c in s.senders && s.senders[c].Releasing?)
    || s.rx.Holding?
    || (s.rx.Passing? && s.rx.left > 0)
  }

  ghost predicate NoLostWakeUp<T>(s: Sys<T>) {
    !s.core.disconnected && |s.core.queue| > 0 ==> Awake(s)
  }

  lemma StepKeepsNoLostWakeUp<T>(s: Sys<T>, a: Act<T>)
    requires NoLostWakeUp(s) && Enabled(s, a) && Positive(a)
    ensures NoLostWakeUp(Next(s, a))
  {
    var s' := Next(s, a);
    if a.Section? && !s.core.disconnected {
      assert s'.senders[a.c].Releasing?;
    } else if !s'.core.disconnected && |s'.core.queue| > 0 && s'.core.permits == 0 && !a.Take? {
      assert Awake(s);
      if c :| c in s.senders && s.senders[c].Releasing? {
        assert s'.senders[c].Releasing?;
      }
    }
  }

  ghost predicate Inv<T>(s: Sys<T>) {
    Fifo(s) && NoLostWakeUp(s)
  }

  lemma StepKeepsInv<T>(s: Sys<T>, a: Act<T>)
    requires Inv(s) && Enabled(s, a) && Positive(a)
    ensures Inv(Next(s, a))
  {
    StepKeepsFifo(s, a);
    StepKeepsNoLostWakeUp(s, a);
  }

  /** Both invariants hold in every state that any interleaving can reach. */
  lemma {:induction false} RunKeepsInv<T>(s: Sys<T>, acts: seq<Act<T>>)
    requires Inv(s) && Valid(s, acts) && AllPositive(acts)
    ensures Inv(Run(s, acts))
    decreases |acts|
  {
    if |acts| == 0 {
    } else {
      StepKeepsInv(s, acts[0]);
      RunKeepsInv(Next(s, acts[0]), acts[1..]);
    }
  }

  lemma EveryReachableStateIsSafe<T>(acts: seq<Act<T>>)
    requires Valid(Init<T>(), acts) && AllPositive(acts)
    ensures var s := Run(Init<T>(), acts);
      && |s.core.log| == |s.core.marks|
      && Kept(s.core.log, s.core.marks) == s.delivered + InFlight(s) + s.core.queue
      && multiset(s.core.log) ==
           multiset(s.delivered) + multiset(InFlight(s)) + multiset(s.core.queue) +
           multiset(Discarded(s.core.log, s.core.marks))
      && (!s.core.disconnected && |s.core.queue| > 0 ==>
            || s.core.permits > 0 || s.rx.Holding? || (s.rx.Passing? && s.rx.left > 0)
            || exists c :: c in s.senders && s.senders[c].Releasing?)
  {
    RunKeepsInv(Init<T>(), acts);
    var s := Run(Init<T>(), acts);
    KeptAndDiscarded(s.core.log, s.core.marks);
    assert multiset(Stream(s)) == multiset(s.delivered) + multiset(InFlight(s)) + multiset(s.core.queue);
  }

  /** Each accepted event has one fate. `p` counts the survivors accepted before it; the event was flushed, or it is
    the `p`-th of the stream and its place there says whether it is delivered, in flight or queued. */
  lemma FateOfAnAcceptedEvent<T>(s: Sys<T>, i: nat)
    requires Fifo(s) && i < |s.core.log| && !s.core.marks[i]
    ensures var p := |Kept(s.core.log[..i], s.core.marks[..i])|;
      var d, f := |s.delivered|, |InFlight(s)|;
      && p < d + f + |s.core.queue|
      && s.core.log[i] ==
           if p < d then s.delivered[p] else if p < d + f then InFlight(s)[p - d] else s.core.queue[p - d - f]
  {
    KeptAt(s.core.log, s.core.marks, i);
  }

  /** While the receiver is there and something is queued, a step that brings the queue nearer to it is enabled: the
    receiver never sleeps on a non-empty queue with nobody left to wake it. */
  lemma ReceiverCanMove<T>(s: Sys<T>) returns (a: Act<T>)
    requires NoLostWakeUp(s) && !s.core.disconnected && !s.rx.Dropped? && |s.core.queue| > 0
    ensures Enabled(s, a) && (a.Acquire? || a.Take? || a.Deliver? || a.EndPass? || a.Release?)
  {
    if s.rx.Holding? {
      a := Take(1);
    } else if s.rx.Passing? {
      a := if |s.rx.rest| > 0 then Deliver else EndPass(1);
    } else if s.core.permits > 0 {
      a := Acquire;
    } else {
      var c :| c in s.senders && s.senders[c].Releasing?;
      a := Release(c, 1);
    }
  }

  /** The limit must be positive. A pass that asks for nothing returns before the left-over check, the permit is
    spent, and the event stays queued with nobody awake. */
  lemma ZeroLimitLosesTheWakeUp<T>(v: T)
    ensures var acts := [BeginSend(1, v), Section(1), Release(1, 1), Acquire, Take(0)];
      Valid(Init<T>(), acts) && !NoLostWakeUp(Run(Init<T>(), acts))
  {
    var s0 := Init<T>();
    var s1 := Next(s0, BeginSend(1, v));
    var s2 := Next(s1, Section(1));
    var s3 := Next(s2, Release(1, 1));
    var s4 := Next(s3, Acquire);
    var s5 := Next(s4, Take(0));
    assert s5.core.queue == [v] && s5.senders == map[] && !Awake(s5);
    RunOne(s4, Take(0));
    RunCons(s3, Acquire, [Take(0)]);
    RunCons(s2, Release(1, 1), [Acquire] + [Take(0)]);
    RunCons(s1, Section(1), [Release(1, 1)] + ([Acquire] + [Take(0)]));
    RunCons(s0, BeginSend(1, v), [Section(1)] + ([Release(1, 1)] + ([Acquire] + [Take(0)])));
    assert [BeginSend(1, v), Section(1), Release(1, 1), Acquire, Take(0)] ==
      [BeginSend(1, v)] + ([Section(1)] + ([Release(1, 1)] + ([Acquire] + [Take(0)])));
  }

  /** Once the receiver is gone nothing is accepted, in any continuation. */
  lemma {:induction false} NothingAcceptedAfterDisconnect<T>(s: Sys<T>, acts: seq<Act<T>>)
    requires Fifo(s) && s.rx.Dropped? && Valid(s, acts)
    ensures var s' := Run(s, acts);
      s'.rx.Dropped? && s'.core.log == s.core.log && s'.core.queue == s.core.queue && s'.delivered == s.delivered
    decreases |acts|
  {
    if |acts| == 0 {
    } else {
      StepKeepsFifo(s, acts[0]);
      NothingAcceptedAfterDisconnect(Next(s, acts[0]), acts[1..]);
    }
  }

  // ---- how long an event waits ----

  function Takes<T>(acts: seq<Act<T>>): nat {
    if |acts| == 0 then 0 else (if acts[0].Take? then 1 else 0) + Takes(acts[1..])
  }

  /** The limits of all passes, added up. */
  function Asked<T>(acts: seq<Act<T>>): nat {
    if |acts| == 0 then 0 else (if acts[0].Take? then acts[0].max else 0) + Asked(acts[1..])
  }

  predicate TakesAtMost<T>(acts: seq<Act<T>>, max: nat) {
    forall i :: 0 <= i < |acts| && acts[i].Take? ==> acts[i].max == max
  }

  lemma {:induction false} AskedIsTakesTimesMax<T>(acts: seq<Act<T>>, max: nat)
    requires TakesAtMost(acts, max)
    ensures Asked(acts) == Takes(acts) * max
  {
    if |acts| == 0 {
    } else {
      AskedIsTakesTimesMax(acts[1..], max);
      assert (Takes(acts[1..]) + 1) * max == Takes(acts[1..]) * max + max;
    }
  }

  predicate Flushes<T>(s: Sys<T>, a: Act<T>)
    requires Enabled(s, a)
  {
    a.Section? && s.senders[a.c].WantsFlush? && !s.core.disconnected
  }

  predicate Flushless<T>(s: Sys<T>, acts: seq<Act<T>>)
    requires Valid(s, acts)
    decreases |acts|
  {
    |acts| > 0 ==> !Flushes(s, acts[0]) && Flushless(Next(s, acts[0]), acts[1..])
  }

  /** How many events have left the queue for the receiver. */
  function Claimed<T>(s: Sys<T>): nat {
    |s.delivered| + |InFlight(s)|
  }

  lemma StepKeepsPlaces<T>(s: Sys<T>, a: Act<T>)
    requires Enabled(s, a) && !Flushes(s, a)
    ensures Stream(s) <= Stream(Next(s, a))
    ensures Claimed(Next(s, a)) == Claimed(s) + if a.Take? then BatchSize(s.core, a.max) else 0
  {
    if !a.Section? { assert Stream(Next(s, a)) == Stream(s); }
  }

  /** Without a flush, events only join the stream at its end and only leave the queue for the receiver. */
  lemma {:induction false} RunKeepsPlaces<T>(s: Sys<T>, acts: seq<Act<T>>)
    requires Valid(s, acts) && Flushless(s, acts)
    ensures Stream(s) <= Stream(Run(s, acts)) && Claimed(s) <= Claimed(Run(s, acts))
    decreases |acts|
  {
    if |acts| == 0 {
    } else {
      StepKeepsPlaces(s, acts[0]);
      RunKeepsPlaces(Next(s, acts[0]), acts[1..]);
    }
  }

  /** One step's worth of waiting: an event that a pass does not reach moves up by what the pass asked for. */
  lemma StepMovesUp<T>(s: Sys<T>, a: Act<T>, k: nat)
    requires Enabled(s, a) && !Flushes(s, a) && k < |s.core.queue| && (a.Take? ==> a.max <= k)
    ensures var t, k' := Next(s, a), if a.Take? then k - a.max else k;
      k' < |t.core.queue| && t.core.queue[k'] == s.core.queue[k] && Claimed(t) + k' == Claimed(s) + k
  {
  }

  lemma {:induction false} StillQueued<T>(s: Sys<T>, acts: seq<Act<T>>, k: nat)
    requires Valid(s, acts) && Flushless(s, acts) && k < |s.core.queue| && Asked(acts) <= k
    ensures var s', k' := Run(s, acts), k - Asked(acts);
      && k' < |s'.core.queue| && s'.core.queue[k'] == s.core.queue[k]
      && Claimed(s') == Claimed(s) + Asked(acts)
    decreases |acts|
  {
    if |acts| == 0 {
    } else {
      StepMovesUp(s, acts[0], k);
      StillQueued(Next(s, acts[0]), acts[1..], if acts[0].Take? then k - acts[0].max else k);
    }
  }

  lemma {:induction false} NoLongerQueued<T>(s: Sys<T>, acts: seq<Act<T>>, k: nat)
    requires Valid(s, acts) && Flushless(s, acts) && k < |s.core.queue| && Asked(acts) > k
    ensures Claimed(Run(s, acts)) > Claimed(s) + k
    decreases |acts|
  {
    var a, t := acts[0], Next(s, acts[0]);
    if a.Take? && k < a.max {
      RunKeepsPlaces(t, acts[1..]);
    } else {
      StepMovesUp(s, a, k);
      NoLongerQueued(t, acts[1..], if a.Take? then k - a.max else k);
    }
  }

  /** The starvation bound. The event at queue index `k` is claimed by the first pass at which the limits asked for
    so far add up to more than `k`, whatever senders append meanwhile: until then it is still queued, nearer the head
    by what was asked for. Once claimed it is delivered by the time its pass ends. */
  lemma StarvationBound<T>(s: Sys<T>, acts: seq<Act<T>>, k: nat)
    requires Valid(s, acts) && Flushless(s, acts) && k < |s.core.queue|
    ensures var s', asked, p := Run(s, acts), Asked(acts), Claimed(s) + k;
      && (asked <= k ==> k - asked < |s'.core.queue| && s'.core.queue[k - asked] == s.core.queue[k])
      && (p < Claimed(s') <==> asked > k)
      && (asked > k && !s'.rx.Passing? ==> p < |s'.delivered| && s'.delivered[p] == s.core.queue[k])
  {
    if Asked(acts) <= k {
      StillQueued(s, acts, k);
    } else {
      NoLongerQueued(s, acts, k);
      RunKeepsPlaces(s, acts);
      assert Stream(s)[Claimed(s) + k] == s.core.queue[k];
      assert Stream(Run(s, acts))[Claimed(s) + k] == s.core.queue[k];
    }
  }

  /** With one limit for all passes, that is exactly pass number `k / max + 1`. */
  lemma ClaimedOnPass<T>(s: Sys<T>, acts: seq<Act<T>>, max: nat, k: nat)
    requires Valid(s, acts) && Flushless(s, acts) && TakesAtMost(acts, max) && max > 0 && k < |s.core.queue|
    ensures Claimed(s) + k < Claimed(Run(s, acts)) <==> Takes(acts) >= k / max + 1
  {
    StarvationBound(s, acts, k);
    AskedIsTakesTimesMax(acts, max);
    QuotientBound(Takes(acts), k, max);
  }

  lemma QuotientBound(j: nat, k: nat, max: nat)
    requires max > 0
    ensures j * max > k <==> j >= k / max + 1
  {
    var q := k / max;
    assert k == q * max + k % max;
    if j <= q {
      assert j * max <= q * max;
    } else {
      assert j * max >= (q + 1) * max;
    }
  }

  predicate Quiet<T>(acts: seq<Act<T>>) {
    forall i :: 0 <= i < |acts| ==> !acts[i].Section?
  }

  /** With quiet senders the queue holds what is left after the limits asked for, or nothing. */
  lemma {:induction false} QuietDrain<T>(s: Sys<T>, acts: seq<Act<T>>)
    requires Valid(s, acts) && Quiet(acts)
    ensures var q := s.core.queue;
      Run(s, acts).core.queue == if Asked(acts) <= |q| then q[Asked(acts)..] else []
    decreases |acts|
  {
    if |acts| == 0 {
    } else {
      assert !acts[0].Section?;
      QuietDrain(Next(s, acts[0]), acts[1..]);
    }
  }

  /** So `n` queued events take exactly `n / max`, rounded up, passes to drain. */
  lemma DrainedAfterPasses<T>(s: Sys<T>, acts: seq<Act<T>>, max: nat)
    requires Valid(s, acts) && Quiet(acts) && TakesAtMost(acts, max) && max > 0
    ensures var n := |s.core.queue|;
      |Run(s, acts).core.queue| == 0 <==> Takes(acts) >= if n == 0 then 0 else (n - 1) / max + 1
  {
    var n := |s.core.queue|;
    QuietDrain(s, acts);
    AskedIsTakesTimesMax(acts, max);
    if n > 0 {
      QuotientBound(Takes(acts), n - 1, max);
    }
  }

  // ---- permits ----

  function Acquired<T>(acts: seq<Act<T>>): nat {
    if |acts| == 0 then 0 else (if acts[0].Acquire? then 1 else 0) + Acquired(acts[1..])
  }

  /** `release` is called: by a sender, by the receiver that left events behind, or with no event behind it. */
  predicate Releases<T>(s: Sys<T>, a: Act<T>) {
    a.Release? || a.Extra? || (a.EndPass? && s.rx.Passing? && s.rx.left > 0)
  }

  function Released<T>(s: Sys<T>, acts: seq<Act<T>>): nat
    requires Valid(s, acts)
    decreases |acts|
  {
    if |acts| == 0 then 0 else (if Releases(s, acts[0]) then 1 else 0) + Released(Next(s, acts[0]), acts[1..])
  }

  /** One release makes at most one permit and leaves at least one; one acquire takes exactly one; nothing else touches
    the semaphore. */
  lemma PermitsAfter<T>(s: Sys<T>, a: Act<T>)
    requires Enabled(s, a)
    ensures var p, p' := s.core.permits, Next(s, a).core.permits;
      if Releases(s, a) then 1 <= p' <= p + 1 else if a.Acquire? then p' == p - 1 else p' == p
  {
  }

  /** Over every run, the permits taken and the permits left never exceed those that were there and the releases made. */
  lemma {:induction false} NoPermitFromNowhere<T>(s: Sys<T>, acts: seq<Act<T>>)
    requires Valid(s, acts)
    ensures Acquired(acts) + Run(s, acts).core.permits <= s.core.permits + Released(s, acts)
    decreases |acts|
  {
    hide Enabled, Next;
    if |acts| == 0 {
    } else {
      PermitsAfter(s, acts[0]);
      NoPermitFromNowhere(Next(s, acts[0]), acts[1..]);
    }
  }

  // ---- putting runs end to end ----

  lemma RunOne<T>(s: Sys<T>, a: Act<T>)
    requires Enabled(s, a)
    ensures Valid(s, [a]) && Run(s, [a]) == Next(s, a)
  {
  }

  lemma RunCons<T>(s: Sys<T>, a: Act<T>, acts: seq<Act<T>>)
    requires Enabled(s, a) && Valid(Next(s, a), acts)
    ensures Valid(s, [a] + acts) && Run(s, [a] + acts) == Run(Next(s, a), acts)
  {
  }

  lemma {:induction false} RunsCompose<T>(s: Sys<T>, first: seq<Act<T>>, second: seq<Act<T>>)
    requires Valid(s, first) && Valid(Run(s, first), second)
    ensures Valid(s, first + second) && Run(s, first + second) == Run(Run(s, first), second)
    decreases |first|
  {
    if |first| == 0 {
      assert first + second == second;
    } else {
      assert (first + second)[1..] == first[1..] + second;
      RunsCompose(Next(s, first[0]), first[1..], second);
    }
  }

  lemma {:induction false} FlushlessCompose<T>(s: Sys<T>, first: seq<Act<T>>, second: seq<Act<T>>)
    requires Valid(s, first) && Flushless(s, first)
    requires Valid(Run(s, first), second) && Flushless(Run(s, first), second)
    ensures Valid(s, first + second) && Flushless(s, first + second)
    decreases |first|
  {
    RunsCompose(s, first, second);
    if |first| == 0 {
      assert first + second == second;
    } else {
      assert (first + second)[1..] == first[1..] + second;
      FlushlessCompose(Next(s, first[0]), first[1..], second);
    }
  }

  lemma {:induction false} TakesCompose<T>(first: seq<Act<T>>, second: seq<Act<T>>)
    ensures Takes(first + second) == Takes(first) + Takes(second)
  {
    if |first| == 0 {
      assert first + second == second;
    } else {
      assert (first + second)[1..] == first[1..] + second;
      TakesCompose(first[1..], second);
    }
  }
}
