/** A stopped thread ends. Once an Exit has been accepted, every step of the thread's own loop brings it nearer to the end
  of `Enter`, no step of anybody else takes it back, and somebody can always move on. So in every weakly fair run it gets
  there, whatever is transmitted, whoever else stops it and however many timers expire. */
module LoopLiveness {
  import opened Events
  import opened Channel
  import C = ChannelRuns
  import opened EventLoop
  import opened Fairness

  /** Who takes a step: the thread itself, or a thread that is inside a call on it. */
  datatype Party = LoopThread | Caller(c: nat)

  predicate TakenBy(p: Party, a: Act) {
    match p
    case LoopThread =>
      a.Acquire? || a.Take? || a.Dispatch? || a.EndPass? || a.Leave? || a.BeginClose? || a.CloseTimer? || a.End?
    case Caller(c) => (a.StopStore? || a.Section? || a.Release?) && a.c == c
  }

  ghost predicate CanStep(s: Loop, p: Party) {
    exists a :: TakenBy(p, a) && Enabled(s, a)
  }

  // ---- what has to be done ----

  /** The loop ends before the final loop over the timers begins. */
  predicate InOrder(s: Loop) {
    && (!s.sys.rx.Dropped? ==> s.phase.Running?)
    && (forall c :: c in s.stopChecked ==> c !in s.sys.senders)
  }

  ghost predicate Doomed(s: Loop) {
    Inv(s) && InOrder(s) && ExitAccepted(s)
  }

  function Stage(s: Loop): nat {
    if s.phase.Ended? then 0
    else if s.phase.Closing? then 1
    else if s.sys.rx.Dropped? then 2
    else if !ExitQueued(s) then 3
    else 4
  }

  /** Steps left within the stage. While the Exit is queued the thread may be asleep until a permit is released. */
  function Place(s: Loop): nat {
    match Stage(s)
    case 1 => |s.phase.todo|
    case 3 => if s.sys.rx.Passing? then 1 + |s.sys.rx.rest| else 0
    case 4 =>
      (match s.sys.rx
       case Passing(rest, _) => 3 + |rest|
       case Idle => if s.sys.core.permits == 0 then 2 else 1
       case _ => 0)
    case _ => 0
  }

  function Rank(s: Loop): Measure {
    Measure(Stage(s), 0, Place(s), 0)
  }

  /** The thread sleeps on its Exit. */
  predicate Asleep(s: Loop) {
    Stage(s) == 4 && s.sys.rx.Idle? && s.sys.core.permits == 0
  }

  predicate Ready(s: Loop, p: Party) {
    match p
    case LoopThread => !s.phase.Ended? && !Asleep(s)
    case Caller(c) => Asleep(s) && c in s.sys.senders && s.sys.senders[c].Releasing?
  }

  // ---- every step ----

  lemma StepKeepsDoomed(s: Loop, a: Act)
    requires Doomed(s) && Enabled(s, a)
    ensures Doomed(Next(s, a))
  {
    hide Inv, InOrder, ExitAccepted, Enabled, Next;
    StepKeepsInv(s, a);
    StepKeepsOrder(s, a);
    StepSpendsAllowance(s, a);
  }

  /** A step of anybody else leaves the thread where it is, except that it may wake it. */
  lemma OtherStep(s: Loop, a: Act)
    requires Enabled(s, a) && !TakenBy(LoopThread, a)
    ensures var t := Next(s, a);
      && t.phase == s.phase && t.sys.rx == s.sys.rx && t.stopRequested == s.stopRequested
      && (t.sys.core.permits == s.sys.core.permits || (a.Release? && t.sys.core.permits > 0))
      && (forall c :: c in s.sys.senders && s.sys.senders[c].Releasing? && !TakenBy(Caller(c), a) ==>
            c in t.sys.senders && t.sys.senders[c].Releasing?)
  {
  }

  lemma OtherDescends(s: Loop, a: Act)
    requires Doomed(s) && Enabled(s, a) && !TakenBy(LoopThread, a)
    ensures LessOrEqual(Rank(Next(s, a)), Rank(s))
    ensures Asleep(s) && a.Release? ==> Less(Rank(Next(s, a)), Rank(s))
  {
    hide Next, Enabled, Inv, ExitAccepted;
    OtherStep(s, a);
    ReleasesAPermit(s, a);
  }

  lemma ReleasesAPermit(s: Loop, a: Act)
    requires Enabled(s, a)
    ensures a.Release? ==> Next(s, a).sys.core.permits > 0
  {
  }

  lemma DispatchDescends(s: Loop, a: Act)
    requires Doomed(s) && Enabled(s, a) && a.Dispatch?
    ensures Less(Rank(Next(s, a)), Rank(s))
  {
    var rest := s.sys.rx.rest;
    assert rest == [rest[0]] + rest[1..];
    assert ExitInv(s);
  }

  lemma PassDescends(s: Loop, a: Act)
    requires Doomed(s) && Enabled(s, a) && (a.Acquire? || a.EndPass? || a.Leave?)
    ensures Less(Rank(Next(s, a)), Rank(s))
  {
    assert ExitInv(s);
  }

  lemma TakeDescends(s: Loop)
    requires Doomed(s) && Enabled(s, Take)
    ensures Less(Rank(Next(s, Take)), Rank(s))
  {
    TakeSpendsAllowance(s);
  }

  lemma CloseDescends(s: Loop, a: Act)
    requires Doomed(s) && Enabled(s, a) && (a.BeginClose? || a.CloseTimer? || a.End?)
    ensures Less(Rank(Next(s, a)), Rank(s))
  {
  }

  /** Every step of the loop itself lowers the rank, and no other step raises it. */
  lemma StepDescends(s: Loop, a: Act)
    requires Doomed(s) && Enabled(s, a)
    ensures LessOrEqual(Rank(Next(s, a)), Rank(s))
    ensures TakenBy(LoopThread, a) || (Asleep(s) && a.Release?) ==> Less(Rank(Next(s, a)), Rank(s))
  {
    hide Doomed, Enabled, Next, Rank, Asleep;
    match a {
      case Dispatch(_) => DispatchDescends(s, a);
      case Acquire => PassDescends(s, a);
      case EndPass(_) => PassDescends(s, a);
      case Leave => PassDescends(s, a);
      case Take => TakeDescends(s);
      case BeginClose => CloseDescends(s, a);
      case CloseTimer(_) => CloseDescends(s, a);
      case End => CloseDescends(s, a);
      case _ => OtherDescends(s, a);
    }
  }

  // ---- somebody can always move on ----

  /** A thread asleep on its Exit is owed a release: no wake-up is lost. */
  lemma SomebodyIsReady(s: Loop)
    requires Doomed(s) && !s.phase.Ended?
    ensures exists p :: Ready(s, p)
  {
    if Asleep(s) {
      assert ExitInv(s) && C.NoLostWakeUp(s.sys) && C.Fifo(s.sys);
      var c :| c in s.sys.senders && s.sys.senders[c].Releasing?;
      assert Ready(s, Caller(c));
    } else {
      assert Ready(s, LoopThread);
    }
  }

  /** The thread's next step, when it is not asleep. */
  function NextStep(s: Loop): Act {
    match Stage(s)
    case 2 => BeginClose
    case 3 => if s.sys.rx.Idle? then Leave
              else if s.sys.rx.Passing? && |s.sys.rx.rest| > 0 then Dispatch(1) else EndPass(1)
    case 4 => if s.sys.rx.Idle? then Acquire
              else if s.sys.rx.Holding? then Take
              else if s.sys.rx.Passing? && |s.sys.rx.rest| > 0 then Dispatch(1) else EndPass(1)
    case _ => End
  }

  lemma LoopCanStep(s: Loop)
    requires Doomed(s) && Ready(s, LoopThread)
    ensures CanStep(s, LoopThread)
  {
    assert ExitInv(s);
    var a := NextStep(s);
    if s.phase.Closing? && s.phase.todo != {} {
      Inhabited(s.phase.todo);
      var id :| id in s.phase.todo;
      a := CloseTimer(id);
    }
    assert TakenBy(LoopThread, a) && Enabled(s, a);
  }

  lemma ReadyCanStep(s: Loop, p: Party)
    requires Doomed(s) && Ready(s, p)
    ensures CanStep(s, p)
  {
    if p.LoopThread? {
      LoopCanStep(s);
    } else {
      var a := Release(p.c, 1);
      assert TakenBy(p, a) && Enabled(s, a);
    }
  }

  /** Whoever is ready lowers the rank by moving, and stays ready unless the rank falls. */
  lemma ReadyAdvances(s: Loop, a: Act, p: Party)
    requires Doomed(s) && Enabled(s, a) && Ready(s, p)
    ensures TakenBy(p, a) || !Ready(Next(s, a), p) ==> Less(Rank(Next(s, a)), Rank(s))
  {
    StepDescends(s, a);
    CallerIsReleasing(s, a, p);
    hide Doomed, Enabled, Next, Less;
    if !TakenBy(LoopThread, a) {
      OtherStep(s, a);
    }
  }

  lemma CallerIsReleasing(s: Loop, a: Act, p: Party)
    requires Enabled(s, a) && Ready(s, p)
    ensures p.Caller? && TakenBy(p, a) ==> a.Release?
  {
  }

  // ---- infinite runs ----

  ghost predicate IsRun(tr: nat -> Loop, acts: nat -> Act) {
    tr(0) == Init() && forall i: nat :: StepAt(tr, acts, i)
  }

  ghost predicate StepAt(tr: nat -> Loop, acts: nat -> Act, i: nat) {
    Enabled(tr(i), acts(i)) && tr(i + 1) == Next(tr(i), acts(i))
  }

  ghost function Can(tr: nat -> Loop): (nat, Party) -> bool {
    (i: nat, p: Party) => CanStep(tr(i), p)
  }

  ghost function Moves(acts: nat -> Act): (nat, Party) -> bool {
    (i: nat, p: Party) => TakenBy(p, acts(i))
  }

  lemma {:induction false} InvAt(tr: nat -> Loop, acts: nat -> Act, i: nat)
    requires IsRun(tr, acts)
    ensures Inv(tr(i)) && InOrder(tr(i))
  {
    hide Inv, Enabled, Next;
    if i == 0 {
      InitHasInv();
    } else {
      InvAt(tr, acts, i - 1);
      assert StepAt(tr, acts, i - 1);
      StepKeepsOrder(tr(i - 1), acts(i - 1));
      StepKeepsInv(tr(i - 1), acts(i - 1));
    }
  }

  lemma InitHasInv()
    ensures Inv(Init())
  {
  }

  lemma StepKeepsOrder(s: Loop, a: Act)
    requires Inv(s) && InOrder(s) && Enabled(s, a)
    ensures InOrder(Next(s, a))
  {
    StepNeeds(s, a);
    CallersAfter(s, a);
    RxAfter(s, a);
    hide Enabled, Next, C.Inv, ExitInv;
  }

  lemma {:induction false} DoomedFrom(tr: nat -> Loop, acts: nat -> Act, n: nat, i: nat)
    requires IsRun(tr, acts) && n <= i && ExitAccepted(tr(n))
    ensures Doomed(tr(i))
    decreases i
  {
    hide Inv, Enabled, Next, InOrder, ExitAccepted;
    InvAt(tr, acts, i);
    if i == n {
    } else {
      DoomedFrom(tr, acts, n, i - 1);
      assert StepAt(tr, acts, i - 1);
      StepKeepsDoomed(tr(i - 1), acts(i - 1));
    }
  }

  /** In every weakly fair infinite run in which an Exit is accepted, `Enter` comes to its end. */
  lemma ThreadEnds(tr: nat -> Loop, acts: nat -> Act, n: nat)
    requires IsRun(tr, acts) && WeaklyFair(Can(tr), Moves(acts)) && ExitAccepted(tr(n))
    ensures exists m: nat :: n <= m && tr(m).phase.Ended?
  {
    hide Enabled, Next, Rank, Ready, TakenBy, Less, ExitAccepted, Doomed, WeaklyFair, CanStep;
    var rank, done := (i: nat) => Rank(tr(i)), (i: nat) => tr(i).phase.Ended?;
    var ready := (i: nat, p: Party) => Ready(tr(i), p);
    forall i: nat | n <= i ensures Advances(rank, done, ready, Can(tr), Moves(acts), i) {
      DoomedFrom(tr, acts, n, i);
      assert StepAt(tr, acts, i);
      LoopAdvances(tr, acts, i);
      if !done(i) {
        var p :| Ready(tr(i), p);
        assert ready(i, p);
      }
    }
    LeadsTo(rank, done, ready, Can(tr), Moves(acts), n);
  }

  lemma LoopAdvances(tr: nat -> Loop, acts: nat -> Act, i: nat)
    requires Doomed(tr(i)) && StepAt(tr, acts, i)
    ensures LessOrEqual(Rank(tr(i + 1)), Rank(tr(i)))
    ensures tr(i).phase.Ended? || exists p :: Ready(tr(i), p)
    ensures forall p :: Ready(tr(i), p) ==>
      CanStep(tr(i), p) &&
      (TakenBy(p, acts(i)) || !Ready(tr(i + 1), p) ==> Less(Rank(tr(i + 1)), Rank(tr(i))))
  {
    hide Enabled, Next, Rank, Ready, TakenBy, Less, Doomed, CanStep;
    StepDescends(tr(i), acts(i));
    if !tr(i).phase.Ended? {
      SomebodyIsReady(tr(i));
    }
    forall p | Ready(tr(i), p)
      ensures CanStep(tr(i), p)
      ensures TakenBy(p, acts(i)) || !Ready(tr(i + 1), p) ==> Less(Rank(tr(i + 1)), Rank(tr(i)))
    {
      ReadyCanStep(tr(i), p);
      ReadyAdvances(tr(i), acts(i), p);
    }
  }

  // ---- a stop is answered ----

  /** Caller `c` of `Stop` has passed the check and not yet reached the locked section of its flush. */
  predicate Stopping(s: Loop, c: nat) {
    c in s.stopChecked || (c in s.sys.senders && s.sys.senders[c].WantsFlush?)
  }

  function StopRank(s: Loop, c: nat): Measure {
    Measure(if ExitAccepted(s) then 0 else if c in s.stopChecked then 2 else 1, 0, 0, 0)
  }

  lemma GoneMeansExit(s: Loop)
    requires Inv(s) && s.sys.core.disconnected
    ensures ExitAccepted(s)
  {
    assert C.Fifo(s.sys) && ExitInv(s);
    var k := s.sys.core;
    KeptAndDiscarded(k.log, k.marks);
    assert Exit in C.Stream(s.sys);
    assert Exit in multiset(Kept(k.log, k.marks));
    assert Exit in multiset(k.log);
  }

  lemma StopAdvances(s: Loop, a: Act, c: nat)
    requires Inv(s) && InOrder(s) && Enabled(s, a) && (ExitAccepted(s) || Stopping(s, c))
    ensures var t := Next(s, a);
      && (ExitAccepted(t) || Stopping(t, c))
      && LessOrEqual(StopRank(t, c), StopRank(s, c))
      && (!ExitAccepted(s) && TakenBy(Caller(c), a) ==> Less(StopRank(t, c), StopRank(s, c)))
  {
    if s.sys.core.disconnected {
      GoneMeansExit(s);
    }
    StepNeeds(s, a);
    CallersAfter(s, a);
    DeliveryAfter(s, a);
    FlushIsExit(s, c);
    hide Inv, Enabled, Next;
  }

  lemma FlushIsExit(s: Loop, c: nat)
    requires Inv(s)
    ensures c in s.sys.senders && s.sys.senders[c].WantsFlush? ==> s.sys.senders[c].value == Exit
  {
    assert SendersInv(s);
  }

  lemma StopCanStep(s: Loop, c: nat)
    requires InOrder(s) && Stopping(s, c)
    ensures CanStep(s, Caller(c))
  {
    var a := if c in s.stopChecked then StopStore(c) else Section(c);
    assert TakenBy(Caller(c), a) && Enabled(s, a);
  }

  lemma {:induction false} StoppingUntil(tr: nat -> Loop, acts: nat -> Act, c: nat, n: nat, i: nat)
    requires IsRun(tr, acts) && Stopping(tr(n), c) && n <= i
    ensures ExitAccepted(tr(i)) || Stopping(tr(i), c)
    decreases i
  {
    hide Inv, Enabled, Next, InOrder, ExitAccepted, Stopping, StopRank;
    if i == n {
    } else {
      StoppingUntil(tr, acts, c, n, i - 1);
      InvAt(tr, acts, i - 1);
      assert StepAt(tr, acts, i - 1);
      StopAdvances(tr(i - 1), acts(i - 1), c);
    }
  }

  lemma ExitIsAccepted(tr: nat -> Loop, acts: nat -> Act, c: nat, n: nat)
    requires IsRun(tr, acts) && WeaklyFair(Can(tr), Moves(acts)) && Stopping(tr(n), c)
    ensures exists m: nat :: n <= m && ExitAccepted(tr(m))
  {
    hide Inv, Enabled, Next, TakenBy, Less, ExitAccepted, Stopping, StopRank, InOrder, WeaklyFair, CanStep;
    var rank, done := (i: nat) => StopRank(tr(i), c), (i: nat) => ExitAccepted(tr(i));
    var ready := (i: nat, p: Party) => p == Caller(c) && !ExitAccepted(tr(i)) && Stopping(tr(i), c);
    forall i: nat | n <= i ensures Advances(rank, done, ready, Can(tr), Moves(acts), i) {
      InvAt(tr, acts, i);
      StoppingUntil(tr, acts, c, n, i);
      assert StepAt(tr, acts, i);
      StopAdvances(tr(i), acts(i), c);
      if !done(i) {
        assert ready(i, Caller(c));
        StopCanStep(tr(i), c);
      }
      AcceptedFalls(tr(i), tr(i + 1), c);
    }
    LeadsTo(rank, done, ready, Can(tr), Moves(acts), n);
  }

  lemma AcceptedFalls(s: Loop, t: Loop, c: nat)
    ensures !ExitAccepted(s) && ExitAccepted(t) ==> Less(StopRank(t, c), StopRank(s, c))
  {
  }

  /** `Stop` is answered: once a call has found `m_stopping` unset, in every weakly fair run the thread's `Enter` comes to
    its end. */
  lemma StopEndsTheThread(tr: nat -> Loop, acts: nat -> Act, c: nat, n: nat)
    requires IsRun(tr, acts) && WeaklyFair(Can(tr), Moves(acts)) && Stopping(tr(n), c)
    ensures exists m: nat :: n <= m && tr(m).phase.Ended?
  {
    hide IsRun, WeaklyFair, Stopping, ExitAccepted;
    ExitIsAccepted(tr, acts, c, n);
    var k: nat :| n <= k && ExitAccepted(tr(k));
    ThreadEnds(tr, acts, k);
  }
}
