/** The id source of src/threading/events.hpp: `TimerEvent::NextId` under any interleaving of any number of callers.

  `NextId` is one atomic fetch-and-add, or two when the first returns 0, which is reserved for "no timer". The counter
  is a signed 64-bit integer and an atomic add on it wraps around. */
module TimerIds {

  const TWO_TO_THE_64: nat := 0x1_0000_0000_0000_0000
  const MAX_ID: int := 0x7FFF_FFFF_FFFF_FFFF
  const MIN_ID: int := -0x8000_0000_0000_0000

  /** `retrying` are the callers whose first add returned 0. History: how many adds there were, every id returned, and
    which add returned it. */
  datatype Source = Source(counter: int, retrying: set<nat>, fetches: nat, returned: seq<int>, tickets: seq<nat>)

  /** Caller `c` makes its next fetch-and-add. */
  datatype Act = Fetch(c: nat)

  function Init(): Source {
    Source(0, {}, 0, [], [])
  }

  function Next(s: Source, a: Act): Source {
    var id := s.counter;
    var t := s.(counter := if id == MAX_ID then MIN_ID else id + 1, fetches := s.fetches + 1);
    if id == 0 && a.c !in s.retrying then t.(retrying := s.retrying + {a.c})
    else t.(retrying := s.retrying - {a.c}, returned := s.returned + [id], tickets := s.tickets + [s.fetches])
  }

  function Run(s: Source, acts: seq<Act>): Source {
    if |acts| == 0 then s else Next(Run(s, acts[..|acts| - 1]), acts[|acts| - 1])
  }

  /** What the add after `k` others returns. */
  function Fetched(k: nat): int {
    var m := k % TWO_TO_THE_64;
    if m > MAX_ID then m - TWO_TO_THE_64 else m
  }

  ghost predicate Inv(s: Source) {
    && s.counter == Fetched(s.fetches)
    && |s.returned| == |s.tickets|
    && (forall i :: 0 <= i < |s.tickets| ==> 0 < s.tickets[i] < s.fetches && s.returned[i] == Fetched(s.tickets[i]))
    && (forall i, j :: 0 <= i < j < |s.tickets| ==> s.tickets[i] < s.tickets[j])
    && (forall k :: 0 < k < s.fetches && Fetched(k) != 0 ==> k in s.tickets)
    && (s.fetches == 0 ==> s.retrying == {})
  }

  lemma FetchedNext(k: nat)
    ensures Fetched(k + 1) == if Fetched(k) == MAX_ID then MIN_ID else Fetched(k) + 1
  {
  }

  lemma StepKeepsInv(s: Source, a: Act)
    requires Inv(s)
    ensures Inv(Next(s, a))
  {
    FetchedNext(s.fetches);
    assert Fetched(0) == 0;
    hide Fetched;
    var t := Next(s, a);
    if |t.tickets| > |s.tickets| {
      assert t.tickets[|s.tickets|] == s.fetches;
      assert forall k :: k in s.tickets ==> k in t.tickets;
    }
  }

  lemma {:induction false} RunKeepsInv(acts: seq<Act>)
    ensures Inv(Run(Init(), acts)) && Run(Init(), acts).fetches == |acts|
  {
    if |acts| == 0 {
    } else {
      RunKeepsInv(acts[..|acts| - 1]);
      StepKeepsInv(Run(Init(), acts[..|acts| - 1]), acts[|acts| - 1]);
    }
  }

  ghost predicate Distinct(ids: seq<int>) {
    forall i, j :: 0 <= i < j < |ids| ==> ids[i] != ids[j]
  }

  lemma FetchedRepeats(j: nat, k: nat)
    requires j < k && Fetched(j) == Fetched(k)
    ensures k - j >= TWO_TO_THE_64
  {
  }

  lemma NoRepeatYet(s: Source)
    requires Inv(s) && s.fetches <= TWO_TO_THE_64 + 1
    ensures Distinct(s.returned)
  {
    hide Fetched;
    forall i, j | 0 <= i < j < |s.returned| ensures s.returned[i] != s.returned[j] {
      if s.returned[i] == s.returned[j] {
        FetchedRepeats(s.tickets[i], s.tickets[j]);
      }
    }
  }

  lemma FetchedOnes()
    ensures Fetched(1) == 1 && Fetched(TWO_TO_THE_64 + 1) == 1
  {
  }

  lemma Repeats(s: Source)
    requires Inv(s) && s.fetches > TWO_TO_THE_64 + 1
    ensures !Distinct(s.returned)
  {
    FetchedOnes();
    hide Fetched;
    var last := TWO_TO_THE_64 + 1;
    assert 1 in s.tickets && last in s.tickets;
    var i :| 0 <= i < |s.tickets| && s.tickets[i] == 1;
    var j :| 0 <= j < |s.tickets| && s.tickets[j] == last;
    assert i < j || j < i;
    assert s.returned[i] == s.returned[j];
  }

  /** In every interleaving the ids returned are distinct exactly as long as the counter has been added to at most
    2^64 + 1 times. (The add after 2^64 others returns 0, which is retried, and the next repeats id 1.) */
  lemma IdsAreDistinct(acts: seq<Act>)
    ensures (forall i, j :: 0 <= i < j < |Run(Init(), acts).returned| ==>
               Run(Init(), acts).returned[i] != Run(Init(), acts).returned[j])
            <==> |acts| <= 0x1_0000_0000_0000_0001
  {
    RunKeepsInv(acts);
    if |acts| <= TWO_TO_THE_64 + 1 {
      NoRepeatYet(Run(Init(), acts));
    } else {
      Repeats(Run(Init(), acts));
    }
  }

  /** Until the counter has gone all the way round, no caller is given 0. */
  lemma IdsAreNonZero(acts: seq<Act>)
    requires |acts| <= 0x1_0000_0000_0000_0000
    ensures 0 !in Run(Init(), acts).returned
  {
    RunKeepsInv(acts);
    hide Inv, Run, Init;
    NoZeroYet(Run(Init(), acts));
  }

  lemma NoZeroYet(s: Source)
    requires Inv(s) && s.fetches <= 0x1_0000_0000_0000_0000
    ensures 0 !in s.returned
  {
    hide Fetched;
    forall i | 0 <= i < |s.returned| ensures s.returned[i] != 0 {
      FetchedZero(s.tickets[i]);
    }
  }

  lemma FetchedZero(k: nat)
    ensures 0 < k < TWO_TO_THE_64 ==> Fetched(k) != 0
  {
  }

  /** Until 2^63 adds have been made the ids are 1, 2, 3 and so on, in the order of the adds: the first add is the one
    that returns 0, and every other returns the number of adds before it. */
  lemma {:induction false} IdsCountUp(acts: seq<Act>)
    requires |acts| <= 0x8000_0000_0000_0000
    ensures var r := Run(Init(), acts).returned;
      |r| == (if |acts| == 0 then 0 else |acts| - 1) && forall i :: 0 <= i < |r| ==> r[i] == i + 1
  {
    if |acts| == 0 {
    } else {
      var n := |acts| - 1;
      IdsCountUp(acts[..n]);
      RunKeepsInv(acts[..n]);
      RetriesFollowTheFirst(Run(Init(), acts[..n]));
    }
  }

  lemma RetriesFollowTheFirst(s: Source)
    requires Inv(s) && s.fetches <= MAX_ID
    ensures s.counter == s.fetches
  {
  }

  // ---- the counter in place ----

  /** The static counter of `NextId` and the callers between its two adds. */
  class IdSource {
    var counter: int
    var retrying: set<nat>
    ghost var fetches: nat
    ghost var returned: seq<int>
    ghost var tickets: seq<nat>

    ghost function State(): Source
      reads this
    {
      Source(counter, retrying, fetches, returned, tickets)
    }

    constructor ()
      ensures State() == Init()
    {
      counter, retrying, fetches, returned, tickets := 0, {}, 0, [], [];
    }

    /** One `fetch_add(1)` of caller `c`; `done` says that its call of `NextId` is over and returns `id`. */
    method FetchAdd(c: nat) returns (done: bool, id: int)
      modifies this
      ensures State() == Next(old(State()), Fetch(c)) && id == old(counter)
      ensures done <==> |returned| > |old(returned)|
      ensures done ==> returned == old(returned) + [id]
    {
      id := counter;
      counter := if counter == MAX_ID then MIN_ID else counter + 1;
      fetches := fetches + 1;
      done := id != 0 || c in retrying;
      if done {
        retrying, returned, tickets := retrying - {c}, returned + [id], tickets + [fetches - 1];
      } else {
        retrying := retrying + {c};
      }
    }

    /** `NextId` when nobody adds in between: 0 is never returned. */
    method NextId(c: nat) returns (id: int)
      requires c !in retrying
      modifies this
      ensures id != 0 && retrying == old(retrying) && returned == old(returned) + [id]
      ensures id == if old(counter) == 0 then 1 else old(counter)
      ensures State() == if old(counter) != 0 then Next(old(State()), Fetch(c))
                         else Next(Next(old(State()), Fetch(c)), Fetch(c))
    {
      var done;
      done, id := FetchAdd(c);
      if !done {
        done, id := FetchAdd(c);
      }
    }
  }
}
