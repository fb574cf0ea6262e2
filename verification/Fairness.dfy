/** Infinite runs under weak fairness, and the rule by which they get somewhere: a rank that no step raises and that falls
  whenever a party that is ready moves. What the runs and their steps are is left to the user of the rule. */
module Fairness {

  /** A lexicographic rank. */
  datatype Measure = Measure(stage: nat, ahead: nat, place: nat, work: nat)

  predicate Less(m: Measure, n: Measure) {
    || m.stage < n.stage
    || (m.stage == n.stage && m.ahead < n.ahead)
    || (m.stage == n.stage && m.ahead == n.ahead && m.place < n.place)
    || (m.stage == n.stage && m.ahead == n.ahead && m.place == n.place && m.work < n.work)
  }

  predicate LessOrEqual(m: Measure, n: Measure) {
    m == n || Less(m, n)
  }

  lemma LessIsTransitive(a: Measure, b: Measure, c: Measure)
    requires LessOrEqual(a, b) && LessOrEqual(b, c)
    ensures LessOrEqual(a, c) && (Less(a, b) || Less(b, c) ==> Less(a, c))
  {
  }

  ghost predicate AlwaysCan<P(!new)>(can: (nat, P) -> bool, p: P, i: nat) {
    forall j: nat :: i <= j ==> can(j, p)
  }

  /** A party that has a step to take from some point on for ever takes one. `can(i, p)` says that `p` has a step at
    time `i`, and `moves(i, p)` that the step at time `i` is one of its steps. */
  ghost predicate WeaklyFair<P(!new)>(can: (nat, P) -> bool, moves: (nat, P) -> bool) {
    forall p, i: nat :: AlwaysCan(can, p, i) ==> exists j: nat :: i <= j && moves(j, p)
  }

  /** The step at time `i` does not raise the rank; somebody is ready before the goal; and whoever is ready has a step,
    lowers the rank by taking it, and stays ready unless the rank falls. */
  ghost predicate Advances<P(!new)>(rank: nat -> Measure, done: nat -> bool, ready: (nat, P) -> bool,
                                    can: (nat, P) -> bool, moves: (nat, P) -> bool, i: nat) {
    && LessOrEqual(rank(i + 1), rank(i))
    && (done(i) || exists p :: ready(i, p))
    && forall p :: ready(i, p) ==>
         can(i, p) && (moves(i, p) || !ready(i + 1, p) ==> Less(rank(i + 1), rank(i)))
  }

  ghost predicate AdvancesFrom<P(!new)>(rank: nat -> Measure, done: nat -> bool, ready: (nat, P) -> bool,
                                        can: (nat, P) -> bool, moves: (nat, P) -> bool, n: nat) {
    forall i: nat :: n <= i ==> Advances(rank, done, ready, can, moves, i)
  }

  ghost predicate Falls(rank: nat -> Measure, i: nat) {
    Less(rank(i + 1), rank(i))
  }

  lemma {:induction false} RankNeverRises<P(!new)>(rank: nat -> Measure, done: nat -> bool, ready: (nat, P) -> bool,
                                                   can: (nat, P) -> bool, moves: (nat, P) -> bool, n: nat, k: nat)
    requires AdvancesFrom(rank, done, ready, can, moves, n) && n <= k
    ensures LessOrEqual(rank(k), rank(n))
    decreases k
  {
    hide Less;
    if k == n {
    } else {
      RankNeverRises(rank, done, ready, can, moves, n, k - 1);
      assert Advances(rank, done, ready, can, moves, k - 1);
      LessIsTransitive(rank(k), rank(k - 1), rank(n));
    }
  }

  lemma {:induction false} ReadyUntil<P(!new)>(rank: nat -> Measure, done: nat -> bool, ready: (nat, P) -> bool,
                                               can: (nat, P) -> bool, moves: (nat, P) -> bool, n: nat, p: P, k: nat)
    requires AdvancesFrom(rank, done, ready, can, moves, n) && ready(n, p) && n <= k
    requires forall i: nat :: n <= i < k ==> !Falls(rank, i)
    ensures ready(k, p)
    decreases k
  {
    if k == n {
    } else {
      ReadyUntil(rank, done, ready, can, moves, n, p, k - 1);
      assert Advances(rank, done, ready, can, moves, k - 1) && !Falls(rank, k - 1);
    }
  }

  lemma ReadyForever<P(!new)>(rank: nat -> Measure, done: nat -> bool, ready: (nat, P) -> bool,
                              can: (nat, P) -> bool, moves: (nat, P) -> bool, n: nat, p: P)
    requires AdvancesFrom(rank, done, ready, can, moves, n) && ready(n, p)
    requires forall i: nat :: n <= i ==> !Falls(rank, i)
    ensures AlwaysCan(can, p, n) && forall j: nat :: n <= j ==> !moves(j, p)
  {
    forall k: nat | n <= k ensures can(k, p) && !moves(k, p) {
      ReadyUntil(rank, done, ready, can, moves, n, p, k);
      assert Advances(rank, done, ready, can, moves, k) && !Falls(rank, k);
    }
  }

  /** Before the goal the rank falls again. */
  lemma FallsAgain<P(!new)>(rank: nat -> Measure, done: nat -> bool, ready: (nat, P) -> bool,
                            can: (nat, P) -> bool, moves: (nat, P) -> bool, n: nat)
    requires WeaklyFair(can, moves) && AdvancesFrom(rank, done, ready, can, moves, n) && !done(n)
    ensures exists i: nat :: n <= i && Falls(rank, i)
  {
    hide Falls;
    assert Advances(rank, done, ready, can, moves, n);
    var p :| ready(n, p);
    if forall i: nat :: n <= i ==> !Falls(rank, i) {
      ReadyForever(rank, done, ready, can, moves, n, p);
    }
  }

  /** The rule: under weak fairness the goal is reached. */
  lemma {:induction false} LeadsTo<P(!new)>(rank: nat -> Measure, done: nat -> bool, ready: (nat, P) -> bool,
                                            can: (nat, P) -> bool, moves: (nat, P) -> bool, n: nat)
    requires WeaklyFair(can, moves) && AdvancesFrom(rank, done, ready, can, moves, n)
    ensures exists m: nat :: n <= m && done(m)
    decreases rank(n).stage, rank(n).ahead, rank(n).place, rank(n).work
  {
    hide WeaklyFair;
    if done(n) {
    } else {
      FallsAgain(rank, done, ready, can, moves, n);
      var i: nat :| n <= i && Falls(rank, i);
      RankNeverRises(rank, done, ready, can, moves, n, i);
      LessIsTransitive(rank(i + 1), rank(i), rank(n));
      LeadsTo(rank, done, ready, can, moves, i + 1);
    }
  }
}
