/** The events and requests of src/threading/events.hpp and src/main/manager_thread.hpp. */
module Events {

  type TimerId = int

  /** What a thread's queue holds. `Null` is an empty pointer; the other four are the concrete event classes. */
  datatype Event =
    | Null
    | Exit  // receiver Self
    | Expired(id: TimerId)  // receiver TimerExpired
    | Shutdown  // receiver ManagerThread
    | WorkerTest  // receiver WorkerThread

  /** What the timer thread's queue holds. Every request also carries an id of its own (`TimerEvent::m_id`); for Add
    that is the id of the new timer. `owner` stands for the sender handle of the thread that asked. */
  datatype Request =
    | AddReq(id: TimerId, owner: nat)
    | UpdateReq(reqId: TimerId, target: TimerId)
    | StopReq(reqId: TimerId, target: TimerId)

  /** Batches put end to end. */
  function Flat<T>(batches: seq<seq<T>>): seq<T> {
    if |batches| == 0 then [] else
    var n := |batches| - 1;
    Flat(batches[..n]) + batches[n]
  }

  lemma FlatSnoc<T>(front: seq<T>, batches: seq<seq<T>>, b: seq<T>)
    ensures front + Flat(batches) + b == front + Flat(batches + [b])
  {
    assert (batches + [b])[..|batches|] == batches;
  }

  /** A loop over `batch` goes on from index `i` to the next. */
  lemma NextOf<T>(front: seq<T>, batch: seq<T>, i: nat, x: T)
    requires i < |batch|
    ensures front + batch[..i] + [batch[i]] == front + batch[..i + 1] && batch[i..][1..] == batch[i + 1..]
    ensures x in batch[..i + 1] <==> x in batch[..i] || x == batch[i]
  {
  }

  lemma Inhabited(s: set<int>)
    requires s != {}
    ensures exists x :: x in s
  {
    assert (forall x :: x !in s) ==> s <= {};
  }
}
