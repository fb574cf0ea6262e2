# Verified model of the message-passing runtime

The program runs threads that talk through channels. Each thread drains its queue in batches of ten, a timer thread turns
kernel completions into expiry events for the threads that asked for them, and a manager stops the workers and itself
when an exit signal comes in. This project models that runtime step by step and proves what its design relies on, over
all interleavings and runs of any length, with any number of senders.

A step is what the program does atomically: a section under the queue mutex, one semaphore operation, one atomic load or
store, or a move only its own thread sees. A semaphore `release` leaves any value from 1 to one more than before, so
every result holds for a counting semaphore, for one that saturates, and for anything between.

## Layers

| file | what it holds |
|---|---|
| `Channel.dfy` | the queue and semaphore of a channel, the history of what was flushed, and the class `Notifier` that updates them in place |
| `ChannelRuns.dfy` | one receiver with any number of senders and flushers: order, flushing, wake-ups, waiting time |
| `Events.dfy` | the events and timer requests |
| `EventLoop.dfy` | a thread on its channel: `Stop`, batches, dispatching, and how much work follows a stop |
| `StopWork.dfy` | the same bound on the work after a stop, shown to be exact in every state |
| `Fairness.dfy` | weak fairness over infinite runs and the rule by which a falling rank reaches its goal |
| `LoopLiveness.dfy` | a stopped thread ends, in every weakly fair run |
| `ChannelLiveness.dfy` | what brings a waiting event nearer to the receiver |
| `LoopDelivery.dfy` | every event a thread's channel accepts is dispatched or flushed, in every weakly fair run, unless the loop leaves first |
| `LoopTimers.dfy` | that thread's timers: stop requests, callbacks, and where every expiry ends up |
| `Thread.dfy` | the class `Thread` in place; every run of it is a run of `EventLoop` |
| `Registry.dfy` | the timer thread's two maps under requests and completions in any order |
| `TimerThread.dfy` | the class `TimerThread` in place; every run of it is a run of `Registry` |
| `TimerWorld.dfy` | threads, request channel, registry and kernel together: from a thread's request to the kernel, and from a completion to the owner |
| `RequestLiveness.dfy` | every timer request made is accepted and handled, in every weakly fair run, while the timer thread is there |
| `TimerIds.dfy` | the id counter shared by all callers, with its 64-bit wrap-around |
| `Shutdown.dfy` | main, manager, timer thread and exit signals: the order of the shutdown |
| `ShutdownLiveness.dfy` | the same: it cannot get stuck, and in a fair run the handshake completes |
| `ShutdownEnds.dfy` | after the handshake the manager's thread ends too, from every reachable state a shutdown is possible, and every run goes on as a weakly fair one |
| `Manager.dfy` | the class `ManagerThread` in place; every run of it is a run of `Shutdown`; the bounded waits |
| `Program.dfy` | `main` on these objects: one schedule from the first step to the manager's end |

The classes `Thread`, `TimerThread` and `ManagerThread` record each step in a ghost `trace`. `Valid()` says that the
fields are exactly the state the step relation computes from the trace, so a theorem about all runs is a theorem about the
object. The methods that stand for a loop of a thread take a schedule: what other threads try to do between its steps.
The schedule is arbitrary, and what is not possible at that moment simply does not happen. `ManagerThread` runs the whole
of the loop it inherits, from `Starting` to the end of `Enter`, with its own handlers in the dispatch loop.

## Results worth knowing

- A pass with limit 0 would lose a wake-up (`ChannelRuns.ZeroLimitLosesTheWakeUp`): `ProcessEvents` returns on an empty
  batch before it looks at what was left behind. All results about wake-ups therefore ask for a positive limit; the
  program uses 10.
- The dispatch loop does not stop at an Exit, and timer expiries pass no check at all. So, whatever the comment in `Stop`
  ("Stop anymore events coming in", src/threading/thread.cpp:47) may suggest, 19 more events can follow a `Stop`:
  `StopWork.NineteenHappen` is a run in which they do, with one timer, nobody transmitting anything and no stale read of
  `m_stopping`. `EventLoop.BoundedWorkAfterStop` says that there are never more. None follows if and only if the Exit has
  left the queue and the batch in flight holds nothing else (`StopWork.NoMoreWorkIff`).
- Timer ids are distinct if and only if the shared counter has been incremented at most 2^64 + 1 times
  (`TimerIds.IdsAreDistinct`).
- A cancelled timer's entry stays in the pending map for ever. That is what makes a stop request always find its timer
  (`TimerWorld.StopFindsItsTimer`).

## Model

| member | source | states |
|---|---|---|
| Channel.FlushRemovesExactlyTheLast | src/channel/channel.hpp:178-187 | marking the last n surviving events as flushed removes exactly these from the survivors and disturbs no other |
| Channel.FlushDiscardsExactlyTheLast | src/channel/channel.hpp:178-187 | what a flush adds to the discarded events is, occurrence by occurrence, what it takes from the survivors |
| Channel.KeptAndDiscarded | src/channel/channel.hpp:158-191 | survivors and discarded events partition the accepted events |
| Channel.KeptAt | src/channel/channel.hpp:121-133 | a surviving event comes after exactly the survivors accepted before it: no overtaking |
| Channel.Notifier.constructor | src/channel/channel.hpp:203-209 | a channel starts connected, empty and without a permit |
| Channel.Notifier.Release | src/channel/channel.hpp:139 | a release leaves 1 up to one more than before and touches nothing else |
| Channel.Notifier.Disconnect | src/channel/channel.hpp:38-43 | destroying the receiver only marks the channel disconnected; the queue stays |
| Channel.Notifier.SendSection | src/channel/channel.hpp:160-172 | appends and records the event, or with no receiver drops it and leaves the queue alone |
| Channel.Notifier.FlushSection | src/channel/channel.hpp:180-187 | the queue becomes the one new event and all queued ones are recorded as flushed, or with no receiver nothing changes |
| Channel.Notifier.TryAcquire | src/channel/channel.hpp:116 | takes one permit if there is one and the wait has not given up |
| Channel.Notifier.TakeSection | src/channel/channel.hpp:118-133 | the batch and what remains make up the old queue, the batch has at most `max` events, and the left-over count is what remains, zero whenever the batch is short |
| Channel.Notifier.SwapSection | src/channel/channel.hpp:103-104 | takes the whole queue in order |
| Channel.Notifier.Send | src/channel/channel.hpp:158-176 | an accepted event is queued and a permit released; a refused one releases none |
| Channel.Notifier.FlushAndSend | src/channel/channel.hpp:178-191 | the same for a flush |
| Channel.Notifier.TryReceiveLimitedMany | src/channel/channel.hpp:110-137 | without a permit the queue is not looked at; with one, the longest prefix the limit allows is taken |
| Channel.Notifier.TryReceiveMany | src/channel/channel.hpp:96-108 | without a permit nothing happens; with one the whole queue is taken |
| ChannelRuns.StepKeepsFifo | src/channel/channel.hpp:110-191 | every step keeps: delivered, then in flight, then queued are the accepted events in order without the flushed ones |
| ChannelRuns.FlushDiscardsExactlyTheQueue | src/channel/channel.hpp:178-187 | a flush discards exactly what is queued at that moment; events in flight and delivered ones stay |
| ChannelRuns.StreamAfter | src/channel/channel.hpp:158-191 | only a locked section changes the stream: a send extends it, a flush cuts off the queue first, a refused event leaves it |
| ChannelRuns.StepKeepsNoLostWakeUp | src/channel/channel.hpp:110-139 | every step with a positive limit keeps: while connected and non-empty, there is a permit, a sender about to release one, a receiver holding one, or a left-over batch owing a wake-up |
| ChannelRuns.RunKeepsInv | src/channel/channel.hpp:110-191 | both invariants over every interleaving of any number of senders and flushers |
| ChannelRuns.EveryReachableStateIsSafe | src/channel/channel.hpp:110-191 | first in first out with flush, conservation of accepted events and no lost wake-up in every reachable state |
| ChannelRuns.FateOfAnAcceptedEvent | src/channel/channel.hpp:121-133 | an accepted event that was not flushed has one computable place among delivered, in flight and queued |
| ChannelRuns.ReceiverCanMove | src/channel/channel.hpp:110-139 | on a non-empty queue a step that brings it nearer to the receiver is always enabled |
| ChannelRuns.ZeroLimitLosesTheWakeUp | src/threading/thread.cpp:103-107 | a run with limit 0 that leaves an event queued with nobody awake |
| ChannelRuns.NothingAcceptedAfterDisconnect | src/channel/channel.hpp:162-168 | no continuation after the receiver is gone accepts anything |
| ChannelRuns.RunKeepsPlaces | src/channel/channel.hpp:158-176 | without a flush the stream only grows at its end |
| ChannelRuns.StarvationBound | src/channel/channel.hpp:121-133 | the event at index k is claimed exactly when the limits of the passes add up to more than k, whatever is appended, stays queued that much nearer until then, and is delivered once its pass ends |
| ChannelRuns.ClaimedOnPass | src/threading/thread.cpp:101-103 | with one limit that is exactly pass k / max + 1 |
| ChannelRuns.QuietDrain | src/channel/channel.hpp:121-133 | with quiet senders the queue is what the passes have not asked for |
| ChannelRuns.DrainedAfterPasses | src/threading/thread.cpp:154-164 | with quiet senders n events are drained if and only if n / max, rounded up, passes were made |
| ChannelRuns.NoPermitFromNowhere | src/channel/channel.hpp:116-139 | over every run the permits taken and the permits left never exceed those there were and the releases made |
| EventLoop.RunLowers | src/threading/thread.cpp:79-169 | every run of a thread is a run of its channel, so all channel results hold for it |
| EventLoop.StepKeepsSendersInv | src/threading/thread.cpp:37-58 | only the timer thread sends expiries and only `Stop` flushes, and it flushes an Exit |
| EventLoop.StepKeepsExitInv | src/threading/thread.cpp:41-51 | every step, racing stops included, keeps Exit at the head of queue and batch and handled at most once |
| EventLoop.RunKeepsInv | src/threading/thread.cpp:37-199 | the channel, sender and Exit invariants over all runs |
| EventLoop.ExitOnlyAtTheHead | src/threading/thread.cpp:171-190 | in every reachable state queue and batch hold an Exit only as first event; at most one is handled, and exactly one once the loop has left |
| EventLoop.RunSpendsAllowance | src/threading/thread.cpp:93-151 | after an accepted Exit, work done plus work still allowed never exceeds the allowance at that moment |
| EventLoop.BoundedWorkAfterStop | src/threading/thread.cpp:112-151 | at most 19 more events other than Exit and one more batch, in any continuation; none beyond the batch in flight once the Exit is in it |
| EventLoop.StopBoundsTheWork | src/threading/thread.cpp:37-52 | the same counted from the flush of a `Stop` call in any reachable state |
| StopWork.AllowanceIsTheMaximum | src/timers/timer_thread.cpp:190-194 | in every state with an accepted Exit, expiries of one timer, with nobody else but the loop moving, make the thread dispatch all the work the allowance leaves; no continuation makes it dispatch more |
| StopWork.NoMoreWorkIff | src/threading/thread.cpp:112-151 | no continuation dispatches any event but Exit if and only if the Exit is out of the queue and nothing else is in flight; the same with only the loop and the timer thread moving |
| StopWork.NineteenHappen | src/threading/thread.cpp:37-58 | a run from the initial state, with one started timer and no transmit, in which 19 events other than Exit are dispatched after the flush of a `Stop` |
| LoopLiveness.StepDescends | src/threading/thread.cpp:93-169 | once an Exit is accepted every step of the loop lowers the rank (stage, place in the pass or timers left) and nobody's step raises it |
| LoopLiveness.SomebodyIsReady | src/channel/channel.hpp:172-175 | until `Enter` has ended the thread can move on, or it sleeps and a caller owes it a release |
| LoopLiveness.ReadyAdvances | src/threading/thread.cpp:79-99 | whoever is ready lowers the rank by moving and stays ready until the rank falls |
| LoopLiveness.ThreadEnds | src/threading/thread.cpp:201-226 | in every weakly fair infinite run in which an Exit is accepted, `Enter` comes to its end |
| LoopLiveness.StopEndsTheThread | src/threading/thread.cpp:37-52 | the same from the moment a `Stop` call has found `m_stopping` unset |
| LoopDelivery.StepDescends | src/threading/thread.cpp:93-169 | every step of the loop brings a waiting event nearer and nobody's step takes it back |
| LoopDelivery.EveryEventIsSettled | src/threading/thread.cpp:101-169 | in every weakly fair infinite run the event at any position of the stream is dispatched as the event of that position, or a `Stop` flushes it from the queue, or the loop leaves first |
| EventLoop.RunPasses | src/threading/thread.cpp:101-103 | the passes of a thread are those of its channel, each with the limit 10 |
| EventLoop.DeliveredOnPass | src/threading/thread.cpp:101-169 | the event at queue index k is claimed by exactly batch k / 10 + 1 and delivered when that pass ends, whatever is transmitted meanwhile, unless a stop flushes it |
| LoopTimers.ExactlyOneStopPerTimer | src/threading/thread.cpp:60-77 | no timer gets two stop requests; when `Enter` has returned, every timer ever started has had exactly one |
| LoopTimers.SilentAfterStopTimer | src/threading/thread.cpp:130-142 | after `StopTimer` the callback never runs again, with whatever stale expiries |
| LoopTimers.KeepsExpiryInvs | src/threading/thread.cpp:130-142 | every step keeps the count of expiries sent and handled balanced |
| LoopTimers.ExpiriesConserved | src/threading/thread.cpp:130-142 | every expiry offered to a thread is in exactly one of: callback run, unknown, in the batch, queued, flushed, dropped, being sent |
| Threads.Thread.constructor | src/threading/thread.cpp:16-27 | a thread starts not stopping, with no timers and an empty channel |
| Threads.Thread.TransmitEvent | src/threading/thread.cpp:54-58 | is the Transmit step, or is refused when `m_stopping` is seen set; a stale read may let it through |
| Threads.Thread.SendExpiry | src/timers/timer_thread.cpp:190-194 | an expiry enters without any look at `m_stopping` |
| Threads.Thread.StopCheckStep | src/threading/thread.cpp:41-45 | the check of `Stop` alone, so two callers can both pass it |
| Threads.Thread.StopStoreStep | src/threading/thread.cpp:47-51 | the store of `Stop` and the start of its flush |
| Threads.Thread.SectionStep | src/channel/channel.hpp:160-187 | the locked section of whichever call the caller is in; a refused one ends there |
| Threads.Thread.ReleaseStep | src/channel/channel.hpp:174-175 | the release after the lock is dropped |
| Threads.Thread.StartTimer | src/threading/thread.cpp:60-66 | requests an Add and registers the new id with its name |
| Threads.Thread.StopTimer | src/threading/thread.cpp:68-77 | unregisters and requests a stop for a registered id, does nothing for any other |
| Threads.Thread.AcquireStep | src/channel/channel.hpp:116 | waits for a permit or gives up |
| Threads.Thread.TakeStep | src/channel/channel.hpp:118-134 | takes a batch of at most 10 |
| Threads.Thread.DispatchStep | src/threading/thread.cpp:112-151 | one round of the dispatch loop delivers the front event and has the effect its receiver says |
| Threads.Thread.HandleSelfEvent | src/threading/thread.cpp:171-190 | the first Exit requests the stop and wakes the loop; a later one changes nothing |
| Threads.Thread.HandleExpiry | src/threading/thread.cpp:130-142 | runs the callback of a registered timer, else logs it as unknown |
| Threads.Thread.EndPassStep | src/threading/thread.cpp:153-164 | wakes the thread again if and only if events were left behind |
| Threads.Thread.DispatchBatch | src/threading/thread.cpp:112-151 | every event of the batch is delivered in order, under any interference; the loop goes on past an Exit |
| Threads.Thread.ProcessEvents | src/threading/thread.cpp:101-169 | nothing without a permit; else one batch of at most 10 is delivered whole, and the stop is requested exactly if it held an Exit |
| Threads.Thread.Execute | src/threading/thread.cpp:79-99 | makes passes until one's batch held an Exit, takes no batch after that one, and then destroys the receiver; all events delivered are those of the batches, in order |
| Threads.Thread.LeaveStep | src/threading/thread.cpp:93-98 | the receiver is gone after the loop has seen the stop request |
| Threads.Thread.BeginCloseStep | src/threading/thread.cpp:216-219 | the final loop starts from the timers left at that moment |
| Threads.Thread.CloseStep | src/threading/thread.cpp:220-223 | one stop request for one timer that is left |
| Threads.Thread.StopRemainingTimers | src/threading/thread.cpp:219-223 | the final loop reaches every timer left, in any order |
| Threads.Thread.StartRunning | src/threading/thread.cpp:205-208 | past the start latch the thread reports running |
| Threads.Thread.EndStep | src/threading/thread.cpp:225 | the thread stops running; the stop requests it sent are, occurrence by occurrence, the Adds it sent |
| Threads.Thread.Enter | src/threading/thread.cpp:201-226 | reports running from the start latch to its end; each pass waits once, and gets a permit exactly if there is one and the wait does not give up; when it returns, the stop requests sent are, occurrence by occurrence, the Adds sent and the timers ever started |
| Threads.Thread.Interfere | src/threading/thread.cpp:37-77 | whatever other threads do between two steps leaves batch, deliveries, phase and passes alone |
| Registry.StepKeepsTimers | src/timers/timer_thread.cpp:86-90 | no request or completion removes a timer's pending entry |
| Registry.StepKeepsKeysInv | src/timers/timer_thread.cpp:130-172 | every step keeps: the pending map holds exactly what the kernel may still complete, under ids below the counter |
| Registry.StepKeepsTimersInv | src/timers/timer_thread.cpp:130-172 | every step keeps: senders belong to pending timers, pending timers have distinct ids, submitted timers are findable |
| Registry.RunKeepsInv | src/timers/timer_thread.cpp:59-126 | the registry invariant over all sequences of requests and completions |
| Registry.RegistryIsConsistent | src/timers/timer_thread.hpp:137-138 | what the invariant means for the two maps, in every reachable state |
| Registry.EveryCompletionIsClaimed | src/timers/timer_thread.cpp:72-91 | no completion's lookup ever fails, and the size of the pending map is adds plus updates and cancels still to complete |
| Registry.RunStaysSilent | src/timers/timer_thread.cpp:176-197 | an id without a sender is never sent an expiry again |
| Registry.SilentAfterCancellation | src/timers/timer_thread.cpp:199-205 | the same from the completion with result -125, which reports the timer cancelled, for all later requests and completions |
| TimerThreads.TimerThread.constructor | src/timers/timer_thread.cpp:19-24 | both maps start empty |
| TimerThreads.TimerThread.FindUringPendingEvent | src/timers/timer_thread.hpp:104-125 | for every iteration order: nothing if and only if no timer has the id, else the one entry that does |
| TimerThreads.TimerThread.AddTimer | src/timers/timer_thread.cpp:130-142 | both maps gain the timer and a timeout is submitted under its event id, or on a failed submission neither changes and only an event id is used up |
| TimerThreads.TimerThread.UpdateTimer | src/timers/timer_thread.cpp:144-157 | submits an update that refers to the timer's own entry, or does nothing for an unknown timer |
| TimerThreads.TimerThread.CancelTimer | src/timers/timer_thread.cpp:159-172 | the same for a cancel; the timer's entry stays |
| TimerThreads.TimerThread.OnCompleteTimerExpired | src/timers/timer_thread.cpp:176-213 | for a known owner a result of -62 (`ETIME`) sends it one expiry and keeps it, -125 (`ECANCELED`) forgets it and sends nothing; any other result, or an unknown owner, changes neither |
| TimerThreads.TimerThread.CompletionStep | src/timers/timer_thread.cpp:72-91 | every completion the kernel may make is claimed: for a timer the entry stays and -62 and -125 have these effects on the owner recorded for it; for an update or a cancel the entry goes and nothing is sent |
| TimerThreads.TimerThread.HandleRequest | src/timers/timer_thread.cpp:97-119 | an accepted Add submits a timeout under the next event id and records its owner; an Update or a Stop of a known timer submits an update or a cancel that names the timer's own entry, with an entry of its own kind; an unknown timer submits nothing |
| TimerThreads.TimerThread.HandleBatch | src/timers/timer_thread.cpp:95-120 | the i-th registry step is the add, the update or the cancel that the i-th request asks for, and there are no others |
| TimerThreads.TimerThread.RequestTimerAdd | src/timers/timer_thread.cpp:28-38 | the Add joins the end of the queue with a permit, or is dropped when the receiver has gone; either way the caller is given the new id |
| TimerThreads.TimerThread.RequestTimerUpdate | src/timers/timer_thread.cpp:40-48 | the Update joins the end of the queue with a permit, or is dropped when the receiver has gone |
| TimerThreads.TimerThread.RequestTimerStop | src/timers/timer_thread.cpp:50-57 | the Stop joins the end of the queue with a permit, or is dropped when the receiver has gone |
| TimerThreads.TimerThread.Receive | src/channel/channel.hpp:158-176 | requests that come in join the end of the queue in order, or are all dropped |
| TimerThreads.TimerThread.Turn | src/timers/timer_thread.cpp:70-121 | one turn is the completion the kernel has, if any, and then the add, update or cancel for each request of a batch, in order; the batch is all that is queued when the lock is taken, requests that came in after the permit included |
| TimerThreads.TimerThread.Run | src/timers/timer_thread.cpp:59-126 | the loop ends exactly where it first finds its stop token set, and the receiver goes with it; each turn made has its completion exactly when the kernel had one, and handles everything sent so far or nothing, and nothing sent before its wait is left unless that wait gave up |
| TimerWorld.StepKeepsThreadsInv | src/threading/thread.cpp:60-77 | a step of the whole keeps every thread's own invariants |
| TimerWorld.RequestsInOrder | src/timers/timer_thread.cpp:94-95 | requests are handled in the order accepted and none is lost, since that channel is never flushed |
| TimerWorld.StepKeepsOwnersInv | src/timers/timer_thread.cpp:28-38 | every id is started by exactly one thread |
| TimerWorld.StepKeepsStopsInv | src/threading/thread.cpp:60-77 | every accepted stop request comes after the Add of its timer |
| TimerWorld.StepKeepsAskedInv | src/threading/thread.cpp:60-77 | every step keeps: the stop requests a thread has made for a timer are those accepted, dropped or being sent on the request channel |
| TimerWorld.StepKeepsExpiriesInv | src/timers/timer_thread.cpp:190-194 | the expiries the registry sent for an id are those its owner was sent, and no one else's |
| TimerWorld.EveryReachableWorldHasInv | src/timers/timer_thread.cpp:59-126 | all invariants in every reachable state of threads, channel, registry and kernel together |
| TimerWorld.ExpiriesAreConserved | src/timers/timer_thread.cpp:176-197 | end to end, each `-ETIME` completion that found a sender has exactly one fate in the owner's thread: callback, unknown, in the batch, queued, flushed, dropped or being sent |
| TimerWorld.ExpiriesReachOnlyTheOwner | src/timers/timer_thread.cpp:139-140 | an expiry is only ever accepted by the thread that started its timer |
| TimerWorld.CompletionReachesTheOwner | src/timers/timer_thread.cpp:176-213 | a timer's completion with -62 puts one expiry into the hands of the thread that started the timer and nobody else's, -125 takes that thread's sender away, and no other result does either |
| TimerWorld.StopRequestsReachTheChannel | src/threading/thread.cpp:60-77 | in every reachable state the stop requests a thread has made for its timer, by `StopTimer` or in the final loop, are exactly those accepted into the request channel, those dropped because the receiver was gone, and those being sent |
| TimerWorld.UpdatesReachTheChannel | src/timers/timer_thread.cpp:40-48 | the same for the updates made in a run |
| TimerWorld.FrontIsHandled | src/timers/timer_thread.cpp:95-120 | handling the next request adds the entry its kind calls for: a timer with its owner, or an update or a cancel for a known timer; a refused or unknown one adds none |
| TimerWorld.StopFindsItsTimer | src/timers/timer_thread.cpp:159-172 | when a stop request is handled its Add has been handled, and unless the kernel refused that Add the timer has its entry and an accepted cancel gets one beside it |
| TimerWorld.NextRequestCanBeHandled | src/timers/timer_thread.cpp:95-120 | pending Adds never repeat an id, so the next request can always be handled |
| RequestLiveness.StepOfChannel | src/timers/timer_thread.cpp:93-120 | every step of the timer thread's handling brings a waiting request nearer, nobody's step takes it back, and no flush removes it |
| RequestLiveness.EveryRequestIsHandled | src/timers/timer_thread.cpp:70-121 | in every weakly fair infinite run the request accepted as the p-th is handled as the p-th, unless the timer thread's receiver goes first |
| RequestLiveness.EveryRequestEnters | src/channel/channel.hpp:158-176 | in every weakly fair infinite run a request that is being sent gets into the channel, unless the timer thread's receiver goes first |
| RequestLiveness.EveryStopIsHandled | src/threading/thread.cpp:60-77 | in every weakly fair infinite run a stop request that a thread has made for its timer is handled, unless the timer thread's receiver goes first |
| TimerIds.StepKeepsInv | src/threading/events.hpp:35-47 | each add returns the number of adds before it, wrapped to 64 bits, and every non-zero value reaches a caller |
| TimerIds.IdsAreDistinct | src/threading/events.hpp:35-47 | in every interleaving of any number of callers, the ids are distinct if and only if there were at most 2^64 + 1 adds |
| TimerIds.IdsAreNonZero | src/threading/events.hpp:40-44 | until the counter has gone round, no caller is given 0 |
| TimerIds.IdsCountUp | src/threading/events.hpp:35-47 | for the first 2^63 adds the ids returned are 1, 2, 3 and so on, none left out |
| TimerIds.IdSource.FetchAdd | src/threading/events.hpp:38 | one add of one caller is the step of the shared counter, and ends the call unless it was the first add of all |
| TimerIds.IdSource.NextId | src/threading/events.hpp:35-47 | never returns 0 when nobody adds in between: the second add makes up for the first |
| Shutdown.StepKeepsMgrInv | src/main/manager_thread.cpp:31-48 | every step of the handshake is a legal step of the manager's event loop and keeps its invariants |
| Shutdown.StepKeepsCallersInv | src/main/manager_thread.cpp:31-44 | every step keeps: main and the timer thread are the only callers, and main is where its program order says |
| Shutdown.StepKeepsOneShutdown | src/main/manager_thread.cpp:37 | every step keeps: one Shutdown accepted, never flushed or refused, dispatched exactly if the teardown has begun |
| Shutdown.StepKeepsHandlerInv | src/main/manager_thread.cpp:139-147 | every step keeps: main passes its wait only after the teardown is complete |
| Shutdown.StepKeepsCallsInv | src/main/manager_thread.cpp:130-134 | every step keeps: a worker has had one stop call exactly if the teardown has reached it |
| Shutdown.DispatchedOnce | src/main/manager_thread.cpp:122 | the guard against a second teardown is never needed: no second Shutdown is ever dispatched |
| Shutdown.RunKeepsInv | src/main/manager_thread.cpp:31-147 | all of these over every run |
| Shutdown.ShutdownOrder | src/main/manager_thread.cpp:31-44 | with any number of signals: Shutdown accepted once, never flushed, handled exactly once before main goes on; every worker stopped exactly once by then; the manager's Exit enqueued only after that |
| Shutdown.NoShutdownWithoutSignal | src/main/manager_thread.cpp:31-37 | without an exit signal no run accepts a Shutdown, stops a worker or stops the manager |
| Shutdown.NoWorkAfterTeardown | src/main/manager_thread.cpp:104-124 | once the teardown has begun no run sends another WorkerTest to any worker |
| ShutdownLiveness.StepDescends | src/main/manager_thread.cpp:31-48 | a lexicographic measure (stage, events ahead of Shutdown, place in the pass, handler work) falls with every progress step and rises with none, timer expiries included |
| ShutdownLiveness.SomebodyIsReady | src/main/manager_thread.cpp:31-48 | no deadlock: after a signal and before main has passed `Stop`, main, the manager or a sender owing a release can move on |
| ShutdownLiveness.ReadyCanStep | src/main/manager_thread.cpp:31-48 | whoever is ready has an enabled step |
| ShutdownLiveness.ReadyMakesProgress | src/main/manager_thread.cpp:31-48 | any step of its own that a ready thread takes lowers the measure |
| ShutdownLiveness.SleeperIsOwedAWakeUp | src/channel/channel.hpp:172-175 | a manager asleep on a queue that holds the Shutdown is owed a release by the timer thread |
| ShutdownLiveness.ReadyStays | src/threading/thread.cpp:93-169 | who can make progress keeps being able to until progress is made |
| ShutdownLiveness.ShutdownCompletes | src/main/manager_thread.cpp:31-48 | in every weakly fair run with a signal main gets past `Stop`, whatever the timer thread appends |
| ShutdownEnds.ManagerEnds | src/main/manager_thread.cpp:31-48 | in every weakly fair run with a signal main gets past `Stop`, then the manager's `Enter` ends, and by then every worker has been stopped exactly once |
| ShutdownEnds.ShutdownIsAlwaysPossible | src/main/manager_thread.cpp:24-48 | every run can be continued by one more signal to a state where all of that has happened |
| ShutdownEnds.EveryRunIsFairInTheEnd | src/main/manager_thread.cpp:24-48 | every finite run goes on as a weakly fair infinite run with a signal, so the results about fair runs are about all the program can have done |
| Managers.ManagerThread.constructor | src/main/manager_thread.cpp:16 | a manager starts with no workers and both semaphores at zero |
| Managers.ManagerThread.AttachWorker | src/main/manager_thread.cpp:18-22 | adds the worker to the set |
| Managers.ManagerThread.RequestShutdown | src/main/manager_thread.cpp:24-28 | releases the initiate semaphore, any number of times: 1 up to one more than before |
| Managers.ManagerThread.WaitStep | src/main/manager_thread.cpp:34-41 | main's two waits pass exactly when their semaphore is positive |
| Managers.ManagerThread.TransmitStep | src/main/manager_thread.cpp:37 | main's Shutdown is a legal transmit on the inherited thread at every one of its steps |
| Managers.ManagerThread.StopStep | src/main/manager_thread.cpp:43-44 | main's `Stop` is a legal stop on the inherited thread at every one of its steps |
| Managers.ManagerThread.Starting | src/main/manager_thread.cpp:158-162 | starts the transmit timer |
| Managers.ManagerThread.CallWorkers | src/main/manager_thread.cpp:130-134 | under the lock every worker is called exactly once and nobody else is, under any interference |
| Managers.ManagerThread.SendEventsToWorkers | src/main/manager_thread.cpp:104-116 | one WorkerTest to each worker, or none once the workers are terminated |
| Managers.ManagerThread.TeardownWorkers | src/main/manager_thread.cpp:118-137 | once only: the transmit timer is stopped and each worker stopped exactly once |
| Managers.ManagerThread.InitiateShutdown | src/main/manager_thread.cpp:139-147 | the teardown, and then main's semaphore holds exactly one permit |
| Managers.ManagerThread.HandleNext | src/main/manager_thread.cpp:164-196 | Shutdown tears down, an expiry of the transmit timer sends the tests unless terminated, and nothing else touches a worker |
| Managers.ManagerThread.Interfere | src/main/manager_thread.cpp:18-48 | other threads leave a running handler, the calls and, under the lock, the workers alone |
| Managers.ManagerThread.AcquireStep | src/channel/channel.hpp:116 | the manager's loop waits for a permit or gives up |
| Managers.ManagerThread.TakeStep | src/channel/channel.hpp:118-134 | the manager's loop takes the longest prefix of at most 10 |
| Managers.ManagerThread.EndPassStep | src/threading/thread.cpp:153-164 | the left-over check after the manager's handlers |
| Managers.ManagerThread.DispatchBatch | src/threading/thread.cpp:112-151 | every event of a batch is handled in order; the workers get tests until the Shutdown, then one stop each and nothing more |
| Managers.ManagerThread.ProcessEvents | src/threading/thread.cpp:101-169 | after a pass whose batch held the Shutdown every worker has been stopped exactly once, after all tests, and main can go on or has gone on |
| Managers.ManagerThread.Execute | src/threading/thread.cpp:79-99 | passes until one's batch held an Exit and none after it |
| Managers.ManagerThread.LeaveStep | src/threading/thread.cpp:93-98 | the manager's receiver is gone after the loop has seen the stop request |
| Managers.ManagerThread.StartRunning | src/threading/thread.cpp:205-208 | the same start for the manager |
| Managers.ManagerThread.StopRemainingTimers | src/threading/thread.cpp:219-225 | the final loop and the end of `Enter`: one stop request for each timer the manager ever started |
| Managers.ManagerThread.Enter | src/threading/thread.cpp:201-226 | reports running until it returns; each pass waits once; when it returns, the teardown has happened, each attached worker has had exactly one stop call, main has sent its Exit, and no timer is left |
| Managers.ManagerThread.WorkersRunning | src/main/manager_thread.cpp:149-156 | true if and only if some attached worker runs |
| Managers.ManagerThread.TryWaitForWorkersShutdown | src/main/manager_thread.cpp:50-75 | at most 50 sleeps; gives up at the first reading 1,000,000,000 ns or more after the start, and at no other; else stops at the first poll that finds no worker running |
| Managers.ManagerThread.TryWaitForManagerShutdown | src/main/manager_thread.cpp:77-102 | the same for the manager itself |
| Managers.WaitIsBounded | src/main/manager_thread.hpp:59 | whatever the threads report, at most 50 sleeps, and the outcome is determined by reports and clock |
| Managers.WaitInNanoseconds | src/main/manager_thread.cpp:55-72 | what the truncated count of milliseconds and the threshold come to in nanoseconds, on every clock by which a sleep lasts its 20ms |
| Managers.FiftySleepsHappen | src/main/manager_thread.cpp:55-72 | the bound is tight |
| Program.Start | src/main/main.cpp:138-157 | starting the manager, attaching the workers and one exit signal bring main to its second wait with the Shutdown queued and a permit for it, for any set of workers |
| Program.TearDown | src/main/manager_thread.cpp:118-147 | the manager takes that batch and stops every worker exactly once |
| Program.FinishMain | src/main/manager_thread.cpp:40-44 | after the teardown main gets past `Stop` without being blocked |
| Program.FinishManager | src/threading/thread.cpp:93-226 | the stopped manager takes one more batch, with the Exit at its head, and its `Enter` ends |
| Program.FromStartToEnd | src/main/main.cpp:138-159 | a new object with any set of workers is driven by its own methods through a whole shutdown; every worker is stopped exactly once and none is tested |

## Assumptions

- Handlers and timer callbacks terminate and throw nothing.
- The kernel completes only what was submitted, an update or a cancel once, a timer any number of times and with any
  result; a refused submission leaves nothing behind.
- `ThreadEnds`, `StopEndsTheThread`, `EveryEventIsSettled`, `EveryRequestIsHandled`, `EveryRequestEnters`,
  `EveryStopIsHandled`, `ShutdownCompletes` and `ManagerEnds` assume weak fairness: a thread that from some point on for ever
  has a step of its own to take does take one. Giving up
  a timed wait, transmitting another event and another timer expiring are not such steps; a call once begun, a pass, and a
  handler are made of such steps.
- The two waits assume that a sleep of 20ms lasts at least 20ms on the steady clock.
- `StartTimer` and `StopTimer` are called on the owner's thread, as in the program, and are one step each up to the locked
  section of the request they send.

## Left out

- `Rx::receive`, `Rx::receiveMany` and `Rx::tryReceive` (src/channel/channel.hpp:45-94): not called anywhere. The first
  pops one event per permit, so a saturating semaphore would lose wake-ups; the last looks at the queue only when the wait
  has failed.
- Destructors, joins, start and stop latches and the lifetimes of shared handles. The release in `~Tx`
  (src/channel/channel.hpp:150-156) is the step `Extra` of `ChannelRuns`, but no step of the thread models takes it, nor
  the release the timer thread makes when it drops the last handle.
- Logging, `ScopedDeadline`, command-line parsing and thread names: I/O and diagnostics.
- src/main/exit_handler.cpp and src/timers/timer.cpp: an exit signal is "`RequestShutdown` may run at any time, any number of
  times". That the exit handle first waits for the timer thread to stop only removes expiries from the runs considered; a
  signal before the manager exists is dropped by the program and is no step here.
- src/uring/io_uring.cpp: replaced by the kernel stated under Assumptions. In the program a prepared entry whose submission
  failed might still be submitted later.
- `OnCompleteTimerUpdate` and `OnCompleteTimerCancel`: they only log.
- The counter of pending-event ids (src/timers/timer_thread.hpp:42) wraps after 2^64 events; here it does not.
- `TimerWorld` draws the ids 1, 2, 3 and so on from an unbounded counter; `TimerIds.IdsCountUp` says that the real one does
  the same for its first 2^63 adds, and `TimerIds.IdsAreDistinct` how long its ids stay distinct.
- Memory order. A relaxed read of `m_stopping` may be stale here as often as it likes, also for a thread that has taken the
  queue mutex after the store, for which it could not; the bounds proved hold for more runs than the program has.
- Callbacks are known by the id of their timer, and a thread's timer names are carried but not used.
- Handlers of `WorkerThread`: a worker is represented by the calls the manager makes on it.
- Threads.Thread.Execute: makes as many passes as its schedule has; that the loop ends is `LoopLiveness.ThreadEnds`.
- Managers.ManagerThread.Execute: the same, with `ShutdownEnds.ManagerEnds`.
- Managers.ManagerThread.Enter: `Starting` and `Stopping` are taken to be the manager's own, and the start latch is left out.
- TimerThreads.TimerThread.Run: makes as many turns as its schedule has unless the stop token is set first; the latches, and
  the wait of `TimerThread::Stop` in the exit handle, are left out.
- `WaitForShutdown` is given step by step (`WaitStep`, `TransmitStep`, `StopStep` and the two waits). It is not claimed that
  all threads have ended when it returns: its waits time out.
- In `Shutdown` the manager may be sent any expiry at any time, not only those of its own timer; the results hold for more
  runs than the program has.
