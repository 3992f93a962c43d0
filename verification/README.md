# NexusQ: a verified model of the ring-buffer protocol

NexusQ is a bounded broadcast queue with many producers and many consumers. Every receiver gets
every value sent after it joined. The queue is a ring of cells; a cell has a value, a counter of
the receivers standing on it (`read_counter`) and the id of the value published in it
(`current_id`).

Senders pass one token around, the write head. A sender swaps in `usize::MAX`, waits until nobody
stands on the cell of the id it got, puts the next id back, and only then writes the value and
stores the id. So several senders can be writing at once, and can publish out of order. A receiver
stands on one cell at a time and moves hand over hand: on to the next cell, then off the previous
one. Nothing in any one function explains why this is safe. The reason is one global sliding
window over the head, the receivers' positions, the counters and the published ids, and this
project states it, proves that every atomic step keeps it, and derives from it what the queue
promises.

## How the project is built

**The protocol (`Protocol.dfy`).** A state is the shared memory (cells, write head, receiver
count) with a program counter for each sender and each receiver handle. A step is one atomic
operation of one thread together with the local work that follows it; the program counters name
the operation that comes next. Any interleaving of steps is a run; senders and receivers are
created, cloned and dropped in the middle of it. History variables record the granted ids with
their authors and values (`log`), the position a receiver is counted on (`held`), where it started
and what it returned (`start`, `got`), and who has the token.

| program counter | atomic operation it does next | source |
|---|---|---|
| Checking, Polling | load `num_receivers` before the token is taken, or at a new poll | src/sender.rs:157, src/sender.rs:239 |
| Granted, Pended | none: between `poll_ready` and `start_send`, or between two polls | src/sender.rs:262-263, src/sender.rs:280-283 |
| Taking | swap the write head | src/wait_strategy/mod.rs:280 |
| Looking, Waiting | load the target's `read_counter`, first and later | src/cell.rs:49-52, src/cell.rs:116 |
| Confirming | load `num_receivers` after an immediate zero | src/sender.rs:126, src/sender.rs:215 |
| Restoring, RollingBack | store the next id, or the same id, in the write head | src/sender.rs:130, src/sender.rs:167 |
| NotifyingHead | `notify_one` on the write head | src/sender.rs:131 |
| Writing, Storing, NotifyingCell | replace the value, store the id, `notify_all` | src/cell.rs:121-123 |
| ReceiverIdle | load the id at the cursor | src/receiver.rs:133, src/receiver.rs:266 |
| Moving, OnBoth, Leaving | `move_to`, the `fetch_sub` of `move_from`, its `notify_all` | src/receiver.rs:136-137 |
| Reading | clone the value | src/receiver.rs:142 |
| Scanning, Copying | one round of the batch loop | src/receiver.rs:183-196 |
| Cloning, Dropping, DropNotifying | the second halves of clone and drop | src/receiver.rs:91, src/receiver.rs:110 |

**The invariant and its proof.** `Invariant.dfy` states it in parts (token, flights, counters,
window, contents); `SenderSteps.dfy` and `ReceiverSteps.dfy` prove that each step keeps it;
`Safety.dfy` draws the safety properties from it. The other theorems build on these:
`Refinement.dfy` (an append-only log with one position per reader), `Disconnect.dfy`,
`LateSends.dfy` and `AbandonedToken.dfy` (what happens when the last receiver leaves),
`Progress.dfy` (Full and Timeout), `Drain.dfy` (deadlock), `Conservation.dfy` (payloads),
`Batch.dfy` and `BatchMoves.dfy` (`try_recv_batch`), `Wakeups.dfy` and `HeadWakeups.dfy` (parking
and notification). `Shutdown.dfy` and `FirstSends.dfy` hold runs that the others build on.

**The code (`Library.dfy`, `Nexus.dfy`, `WaitStrategy.dfy`, `Sender.dfy`, `Receiver.dfy`).** The
shared memory and the handles are classes whose fields are updated in place, with the source's
operations as methods. Each atomic operation carries out exactly one step of the protocol (`View() ==
Apply(old(View()), step)`), and between any two of them other threads may do any run of steps of
their own (`Nexus.Interfere`). A sender handle is two senders of the protocol, one for its calls
and one for its polls, since a call may come between two polls. An object is valid when its state
is reachable in the protocol, so all the theorems about reachable states hold of it at every point
of every method. The channel keeps a ghost history of every step taken, its own and those of other
threads, with the state before each. The contract of every call says which of them were the
call's own, exactly: how many checks it made, in which states, and that the outcome is the one they
decide. `LoneCalls.dfy` draws from these contracts how a call ends that is left alone.

## Where the code differs from what one would expect

- `send` and `try_send_before` keep the token when they return `Disconnected`, and so does a
  `poll_ready` that holds an id (src/sender.rs:239-241). The documentation (src/sender.rs:23-24)
  says that continued use will always return this error. That holds of `try_send` and `poll_ready`
  only: from then on `send` never returns and `try_send_before` can only time out
  (`AbandonedToken.ContinuedUse`).
- `try_send` and `poll_ready` look at `num_receivers` only before they take the token. After the
  last receiver left, any number of them may still be granted ids, and two may write one cell at
  the same time (`LateSends`). They may also land in the wrong order, so that a cell ends with the
  older of two values (`Conservation.LateLandingsLose`).
- A `Full` or a `Timeout` puts the token back without a notification, so a sender that went to
  sleep meanwhile may sleep on a free head. So may one when a `poll_ready` that was notified finds
  no receivers and returns with its listener (`HeadWakeups`).
- A receiver that leaves a pending `poll_next` for another call keeps the listener, so its next
  `poll_next` may sleep on the cell of an id that it has long received. It is then woken by the
  publisher of that id, not of the one it waits for (`Wakeups.NoLostWakeupOnCells`).

## Model

| member | source | states |
|---|---|---|
| Prelude.FastModIsMod | src/prelude.rs:9-13 | for every x and every power of two, the masked conjunction is the remainder |
| Prelude.ConsecutiveIdsCoverTheCells | src/prelude.rs:9-13 | any n consecutive ids reach each of the n cells exactly once |
| Prelude.SlotsApart | src/prelude.rs:9-13 | two ids less than n apart never share a cell |
| Prelude.WrappingStepsTheIndex | src/receiver.rs:139-140 | adding one with wrap-around at 2^64 moves the index one cell on, from the last cell to the first |
| Prelude.AcceptedSizeRounds | src/lib.rs:115-123 | every accepted size rounds to the least power of two that holds it, below twice the size, without overflow |
| Library.MakeChannel | src/lib.rs:182-194 | Ok exactly for sizes from 2 to isize::MAX, the right error otherwise; a sender and a receiver at rest, with the given strategies, on a channel in the initial state with the least power of two that holds the size |
| Channel.Nexus.constructor | src/lib.rs:123-133 | empty cells that were never published, the head at 1, one receiver counted on cell 0 |
| Channel.Nexus.TryTake | src/wait_strategy/mod.rs:279-285 | the head is TAKEN afterwards; the old head is returned exactly if it was not TAKEN |
| Channel.Nexus.Restore | src/wait_strategy/mod.rs:287-289 | the head holds the value; one step of the protocol |
| Channel.Nexus.ReplaceValue | src/cell.rs:120-121 | the cell has the new value, the old one is returned, nothing else changed |
| Channel.Nexus.StoreCurrentId | src/cell.rs:122 | the cell shows the id, nothing else changed |
| Channel.Nexus.MoveTo | src/cell.rs:139-141 | one more on that counter, nothing else changed |
| Channel.Nexus.FetchSub | src/cell.rs:130-137 | one less on that counter, wrapping; tells whether it was the last |
| WaitStrategy.HybridWait.Wait | src/wait_strategy/hybrid.rs:128-145 | with any interference between checks: it ends with a value only through a check that held, leaving the caller just past it; otherwise it has made exactly num_spin + num_yield + 2 + 2 * patience checks, every one of which failed in the state in which it was made, and the caller is where it was; the caller is granted nothing meanwhile |
| WaitStrategy.HybridWait.WaitUntil | src/wait_strategy/hybrid.rs:147-176 | the same with a clock that is looked at after each failed spin or yield check and when parking: it times out after exactly the checks for which there was time, all of which failed |
| WaitStrategy.HybridWait.Poll | src/wait_strategy/block.rs:83-115 | the same of a poll: Pending after 2 + 2 * patience checks, all of which failed |
| WaitStrategy.HybridWait.Block | src/wait_strategy/block.rs:48-60 | the same of the loop that checks after registering and again after waking: 1 + 2 * patience checks |
| SendSide.SenderHandle.Send | src/sender.rs:118-135 | Sent: exactly one id was granted to this sender since the call, and it holds the value; Disconnected: none was, there are no receivers, and the token stays away; Blocked: all checks of the wait it is in failed. The outcome is the one that its own swaps, its looks at the counter and its look at num_receivers decide, and it did nothing else; what a poll left in the handle is as before |
| SendSide.SenderHandle.TrySend | src/sender.rs:156-178 | never blocks; one look at num_receivers, one swap and one look at the counter decide between Disconnected, Full and Sent; Sent appends exactly this value under one id of its own; Full and Disconnected give the value back and append nothing; on Full the head is TAKEN by another, or the id that was taken is back in it |
| SendSide.SenderHandle.TrySendBefore | src/sender.rs:203-228 | as send, or Timeout with the value given back, nothing appended, and the id that was taken, if any, back in the head; Timeout only if every swap, or every look at the cell, for which there was time has failed; past the deadline at the call it does nothing |
| SendSide.SenderHandle.PollReady | src/sender.rs:238-286 | Disconnected if and only if the load with which the poll starts finds no receivers; Ready: exactly one id was granted in this poll and is kept for start_send; Pending only if every swap of the poll, or every look at the held cell, has failed; an id that was taken is kept for the next poll |
| SendSide.SenderHandle.StartSend | src/sender.rs:288-299 | the item is published under the id that poll_ready was granted, in exactly three steps |
| SendSide.SenderHandle.WaitForWriteSafe | src/cell.rs:48-63 | an immediate zero makes one look at num_receivers decide; otherwise a wait for zero decides, without such a look; true only in front of the restore, false only with no receivers and the token abandoned |
| SendSide.SenderHandle.WriteAndPublish | src/cell.rs:119-125 | the log's entry for the id is this sender's value afterwards |
| SendSide.SenderHandle.PutBack | src/sender.rs:165-169 | the head holds the id that was taken, the next one to grant, and nothing was granted |
| SendSide.SenderHandle.CloneHandle | src/sender.rs:87-97 | a handle on the same channel with the same strategies and nothing under way; nothing shared changed |
| ReceiveSide.ReceiverHandle.Recv | src/receiver.rs:129-143 | the log's value at the cursor, and the cursor one further; cut off only after exactly the checks its wait allows, in none of which the id was published |
| ReceiveSide.ReceiverHandle.TryRecvUntil | src/receiver.rs:225-244 | the same, or Timeout with nothing moved after exactly the checks for which there was time, in none of which the id was published |
| ReceiveSide.ReceiverHandle.TryRecv | src/receiver.rs:262-278 | a value if and only if the next id was published at the call, and then the log's; otherwise nothing changed |
| ReceiveSide.ReceiverHandle.PollNext | src/receiver.rs:287-306 | never Ready(None); Ready is the log's value at the cursor; Pending only after all checks of the poll failed |
| ReceiveSide.ReceiverHandle.TryRecvBatch | src/receiver.rs:173-208 | the log from the cursor on, at most max and at most n - 1 values, no fewer than were published at the call, and the cursor moved by their number |
| ReceiveSide.ReceiverHandle.Clone | src/receiver.rs:85-100 | exactly one move_to on the previous cell and one increment of num_receivers, with only other threads between; a new receiver at the same position that has returned nothing; the parent is as before |
| ReceiveSide.ReceiverHandle.Drop | src/receiver.rs:104-111 | one decrement of num_receivers, then one move_from; the handle is gone and counted nowhere |
| LoneCalls.LoneSend | src/sender.rs:118-135 | a send or try_send_before during which nobody else runs: Sent with a free head, a free cell and a receiver; Disconnected with a free head, a free cell and no receiver; otherwise neither |
| LoneCalls.LonePoll | src/sender.rs:238-286 | a poll_ready during which nobody else runs: Disconnected without receivers, Pending if the head or the cell is not free, Ready otherwise |
| LoneCalls.PublishedInTimeIsSeen | src/wait_strategy/hybrid.rs:147-176 | in a wait for an id, an id that is published at any time before the last allowed check is seen |
| Safety.PublishedIsSeen | src/cell.rs:74-77 | in every reachable state the cell at a resting receiver's cursor shows exactly that id if and only if the id is published: the wait for the exact id cannot miss it |
| Safety.StepInv | src/sender.rs:118-135 | every step of every thread keeps the global invariant |
| Safety.TokenIsUnique | src/wait_strategy/mod.rs:275-290 | the head is the next id and nobody has the token, or it is TAKEN and at most one sender has it, with the next id |
| Safety.GrantsAreGapFree | src/sender.rs:122-130 | a step grants the next id to the sender that restores it, or grants nothing; entries are never taken back or changed |
| Safety.GrantsAreConsecutive | src/sender.rs:122-130 | over any run the granted ids are consecutive and each is granted once, rollbacks included |
| Safety.WindowHolds | src/receiver.rs:133-140 | every live receiver stands on one of the last n granted ids |
| Safety.ZeroIsFinal | src/cell.rs:115-117 | once the next id's cell counts nobody, no receiver ever stands that far back again, whatever happens next |
| Safety.NoReadWriteOverlap | src/cell.rs:119-125 | no sender is between replacing a value and storing its id on a cell that a receiver reads, be it after recv advanced or in a batch that reads ahead |
| Safety.WritersApart | src/sender.rs:130-133 | while a receiver lives, granted unpublished ids lie strictly within n of its position and target distinct cells |
| Safety.UnreadIsIntact | src/cell.rs:119-123 | a published id that a live receiver has not passed is in its cell with its value |
| Safety.PublicationOrder | src/cell.rs:119-123 | while a receiver lives, a cell's id changes only forward, to an id of that cell |
| Safety.UnwrapIsJustified | src/cell.rs:147-156 | whenever a value is read the cell holds one, and it is the log's for the id that is meant |
| Safety.CountersExact | src/cell.rs:130-141 | every counter is the number of receivers on that cell, counting movers on both and clones twice; it is positive whenever it is decremented, and all are zero when no receiver is left |
| Safety.NoReceiversForever | src/receiver.rs:84-112 | once num_receivers is zero it stays zero |
| Shutdown.ShutDown | src/receiver.rs:103-112 | from every state the receivers have a run in which all finish and are dropped, and no sender, token, head or log entry changes |
| Refinement.StepRefines | src/sender.rs:118-135 | each step is a step of the append-only log, or invisible to it |
| Refinement.RunRefines | src/receiver.rs:129-143 | each run is, state by state, a run of the log from the empty log with one reader |
| Refinement.NothingLostRepeatedOrReordered | src/receiver.rs:129-143 | what a receiver returned is the log from where it joined to where it stands |
| Refinement.ReceiversAgree | src/receiver.rs:129-143 | two receivers that passed the same id returned the same value for it |
| Disconnect.CheckedWritersDistinct | src/sender.rs:214-217 | with only send and try_send_before, writers keep to distinct cells in every run, also after the last receiver left |
| Disconnect.CheckedRun | src/cell.rs:119-123 | in such runs the last n granted ids, as far as published, are in their cells with their values at all times, with or without receivers |
| Disconnect.AtMostOneMoreGrant | src/receiver.rs:103-112 | in such runs at most one more id is granted once the last receiver has left its cell |
| LateSends.EarlyCheckRaces | src/sender.rs:157-160 | for every buffer length there is a run of try_send alone, and one of poll_ready alone, that ends with two senders about to write one cell |
| LateSends.WritersDistinctExactlyWhenChecked | src/sender.rs:126-128 | writers keep apart in all runs of a set of operations if and only if it has neither try_send nor poll_ready |
| AbandonedToken.AbandonedForever | src/sender.rs:126-128 | once a Disconnected of send, try_send_before or poll_ready has kept the token, or is bound to: no id is granted any more, a send that waits for the token waits in every continuation, and a poll that holds the id is never Ready |
| AbandonedToken.SendReturnsExactlyWhenHeadIsFree | src/sender.rs:23-26 | with no receivers, a send or try_send_before left alone returns Disconnected, with its value, if and only if the head is not TAKEN at the call |
| AbandonedToken.SendCanReturnExactlyUnlessTokenIsLost | src/sender.rs:118-128 | in every reachable state, with or without receivers and whatever else is under way: a send before its swap returns in some continuation if and only if the token is not lost, that is abandoned, or without receivers held where num_receivers is still to be checked or was found zero |
| AbandonedToken.SendReturnsOnceItTakes | src/sender.rs:118-128 | whatever other threads do: with no receivers a send or try_send_before returns Disconnected if and only if it takes the token and has two more steps; Timeout only if it has not taken it |
| AbandonedToken.OvertakenSendNeverReturns | src/sender.rs:126-128 | a send that finds a free head at the call never returns if another swaps first |
| AbandonedToken.LostMeansNoReceivers | src/sender.rs:126-128 | the token is lost only when num_receivers is zero |
| AbandonedToken.ContinuedUse | src/sender.rs:23-26 | once the token is lost, whatever other threads do: send cannot return, try_send_before can only return Timeout, and Disconnected is possible, and then the only result, if and only if the call is a try_send or a poll_ready |
| AbandonedToken.PollKeepsToken | src/sender.rs:239-241 | a run in which a poll_ready that holds an id returns Disconnected and keeps the token; from there a send by the other handle never returns and the poll is never Ready |
| AbandonedToken.SecondSendNeverReturns | src/sender.rs:126-128 | after the only receiver is dropped the first send returns Disconnected and the second never returns |
| Progress.CountedMeansFull | src/cell.rs:115-117 | the next id's cell is counted on if and only if some live receiver has n - 1 unread ids, receivers in the middle of a move included |
| Progress.FullIsExact | src/sender.rs:156-178 | with a free token, an undisturbed try_send is Full if and only if some receiver has n - 1 unread ids; then only its result changed |
| Progress.FullWheneverItLooks | src/sender.rs:160-169 | under any interference: Full if and only if the head is TAKEN at the swap, or some receiver has n - 1 unread ids at the look |
| Progress.FailedAttemptLeavesNoTrace | src/sender.rs:165-169 | whatever other threads do: no step of a try_send that ends in Full, or of a try_send_before that ends in Timeout, touches a cell, a counter, the log or a receiver, or abandons the token; if it takes the token it puts it back, with the id it took |
| Progress.TimeoutLeavesNoTrace | src/sender.rs:218-221 | a lone try_send_before that takes the token and times out, after any number of checks, changes nothing but its own result |
| Progress.TimeoutWithoutToken | src/sender.rs:208-209 | so does one that times out after any number of failed swaps |
| Progress.BlockedSenderHasHelp | src/cell.rs:48-54 | when a sender is blocked on a full cell, a slowest receiver can move on or a sender in flight is about to publish for it |
| Drain.HelpUntilFreed | src/cell.rs:48-54 | from every state of the invariant with two cells or more, the others have a run, without a new call but recv and start_send and without dropping a receiver, after which the cell of a blocked sender is free |
| Drain.DeadlockFreeExactlyFromTwo | src/lib.rs:115-117 | every sender blocked in a reachable state can be freed so if and only if the buffer has at least two cells |
| Conservation.StepConserves | src/cell.rs:119-125 | no step creates, loses or duplicates a value |
| Conservation.NothingLost | src/lib.rs:366-401 | over any run: what was offered was returned in an error, is with a sender, is in a cell, or was dropped by a replacement |
| Conservation.BufferHoldsTheLastN | src/lib.rs:366-401 | with no granted id unpublished, and a receiver left or only send and try_send_before called: what was offered was returned, is in the hand of a waiting sender, or is in the log; the buffer holds the last n of the log; exactly the others were dropped |
| Conservation.LateLandingsLose | src/sender.rs:157-177 | for every buffer length a run of try_send alone, and one of poll_ready alone, that ends with nothing in flight and the latest value gone from the buffer |
| Conservation.LastNExactlyWhenChecked | src/sender.rs:126-128 | in all runs of a set of operations with nothing in flight the buffer is the last n accepted values, if and only if the set has neither try_send nor poll_ready |
| Batch.FinishIsARun | src/receiver.rs:173-208 | an operation left to itself ends, as a run of its own steps |
| Batch.BatchIsRepeatedReads | src/receiver.rs:173-208 | in a state that stays put, try_recv_batch(max) leads to the same state as min(max, n - 1) calls of try_recv that stop at the first NoNewData: values, cursor, previous cell, all counters |
| Batch.ConcurrentBatchIsRepeatedReads | src/receiver.rs:183-205 | whatever other threads do during its loop, a batch of m values that then moves alone ends as m successful calls of try_recv would, in the run without the loop |
| BatchMoves.WholeBatchIsRepeatedReads | src/receiver.rs:173-208 | whatever other threads do at any time, also while the batch stands on two cells: a batch of m values ends as m successful calls of try_recv at the moment it leaves its first cell, in a run where the others take the same steps, up to extra notifications by a receiver that is the last on a cell |
| Wakeups.NoLostWakeupOnCells | src/wait_strategy/block.rs:48-60 | in every run of all operations, polls and left-over listeners included: whoever sleeps on a cell and is not notified although its condition holds has a thread that is about to notify the cell on which it listens |
| Wakeups.NoLostWakeupOnHead | src/wait_strategy/block.rs:121-133 | in every run without a rollback and without a poll_ready that returns Disconnected holding a listener: if a sender sleeps on a free head then somebody is about to notify, is notified, or is about to try |
| HeadWakeups.RollBackForgets | src/sender.rs:166-169 | a run in which a Full or a Timeout leaves a sender asleep on a free head with nobody to wake it |
| HeadWakeups.StrayForgets | src/sender.rs:239-241 | a run of poll_ready alone, without a rollback, in which a poll that was notified returns Disconnected and another sleeps on a free head with nobody to wake it |
| HeadWakeups.HeadSafeExactlyWithout | src/sender.rs:218-221 | head wake-ups are safe in all runs of a set of operations if and only if it has no poll_ready, no try_send_before, and not both try_send and send |
| HeadWakeups.SleepingSenderHasHelp | src/wait_strategy/block.rs:48-60 | in every run from two cells on: a sender, or a pending poll, asleep on a full cell has a notifier, or a slowest receiver that can move and is awake or about to be woken where it listens, or a sender awake with the id that receiver needs |

## Left out

- Memory orderings: each atomic operation is one sequentially consistent step.
- Ids beyond `usize::MAX` - 1: the step that would store `usize::MAX` in the head is never taken, and the send methods end with `OutOfIds` there; only the index arithmetic covers wrap-around.
- SendSide.SenderHandle.Send: a call that waits is cut off after it parked `patience` times (`Blocked`), since no bound on its waiting follows from the protocol; no fairness is assumed or proved.
- SendSide.SenderHandle.TrySendBefore: the clock is not modelled; parameters say whether the deadline has passed at the call and how often each wait finds time left.
- ReceiveSide.ReceiverHandle.Recv: a call that waits is cut off like send, with None.
- ReceiveSide.ReceiverHandle.TryRecvBatch: returns the values it read as a sequence, in place of appending them to the caller's vector and returning their number.
- ReceiveSide.ReceiverHandle.PollNext: wakers and contexts are not modelled; `patience` is how often the poll finds itself notified before it returns Pending.
- BatchMoves.WholeBatchIsRepeatedReads: is about batches that read something; one that reads nothing is Batch.ConcurrentBatchIsRepeatedReads with m = 0.
- AbandonedToken.PollKeepsToken: shown for a buffer of two cells; what follows from it is proved for all.
- Conservation.LastNExactlyWhenChecked: assumes a payload type with two different values; with one there is nothing to tell apart.
- The `event_listener` crate: replaced by a model in which `notify(n)` notifies at least one, or all, of the registered listeners, more may be notified, and a notified listener that is dropped passes its notification on.
- `Sink` misuse: a second `poll_ready` after Ready, dropping a `Sender` whose poll holds an id, or `start_send` without a Ready; `poll_flush` and `poll_close`, which do nothing.
- `BackoffWait`: a plain retry loop, an easier instance of the same waiting.
- Dropping a `Sender` in the protocol, where it changes nothing; that it drops the listener of a pending `poll_ready` is part of the wake-up model.
- `Debug`, error texts, `Send` impls, reference counting, Cargo features.
