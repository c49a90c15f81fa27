# DeqinActor message path: a verified model

DeqinActor is an actor framework. Every message an actor receives goes through a mailbox of
two lanes; a lane is a chain of lock-free rings; a message may first be appended to a
write-ahead log; requests carry correlation ids that pair responses with futures; a token
bucket and a circuit breaker hold senders back. This project models those parts and proves
what they promise.

Two kinds of model are used, often for the same source file:

- **Step machines** (`*Steps.dfy`, `Futures.dfy`). One transition per atomic access, critical
  section or channel operation, any number of threads, a program counter and possibly stale
  locals per thread. A run is a schedule; theorems are for every schedule.
- **Objects** (`Ring`, `SegmentedQueue`, `Mailbox`, `Wal`, `Actor`, `TokenBucket`,
  `CircuitBreaker`, `FutureStore`). Classes with the source's fields, updated in place by
  methods that follow the source's branches, called by one caller at a time, each proved
  against a specification on values.

## How the files fit

| file | models | source |
|---|---|---|
| `RingSteps`, `RingTheorems` | the ring, one step per atomic load, CAS or store | `mailbox/ring.go` |
| `RingCalls` | the same call by call: one answer for each call, and how many steps calls take | `mailbox/ring.go` |
| `RingRefinement` | those steps as one atomic bounded queue that gives the same answers | `mailbox/ring.go` |
| `Ring`, `Slots` | the ring as an object on wrapping 64-bit words | `mailbox/ring.go` |
| `SegmentChain`, `Segmented` | the chain of rings: on values, and as linked segments | `mailbox/segmented.go` |
| `SegmentedSteps`, `SegmentCalls`, `SegmentedLoss`, `SegmentBudget`, `SegmentRefusal`, `SegmentedRuns` | the chain under many producers and one consumer: order, how calls end and what their retries cost, what is lost and when, the budget, when an empty queue refuses; building blocks for concrete runs | `mailbox/segmented.go`, `actor/base_actor.go` |
| `Mailbox` | two lanes, counter, notify slot, policies, write-ahead hook | `mailbox/mailbox.go` |
| `MailboxSteps`, `MailboxLoss` | Push against the run loop's Pop and Wait, on two such chains: wake-ups, the counter, the log | `mailbox/mailbox.go`, `actor/base_actor.go` |
| `MailboxOrder`, `MailboxPushes`, `MailboxCalls` | what is handed to the handler against what was pushed; how Push, Pop, Wait and Close end | `mailbox/mailbox.go`, `actor/base_actor.go` |
| `Wal`, `Restart` | the log's framing, every crash point, and refilling a mailbox | `persistence/wal.go`, `actor/base_actor.go` |
| `TokenBucket`, `TokenBucketSteps`, `TokenBucketSolo`, `DisabledLimit` | rounding, overflow, liveness and conservation over series of calls; conservation under races; that the two agree; rates of 0 or less under races | `actor/ratelimit.go` |
| `AskSteps`, `AskAnswers`, `WaitTokens` | responses racing timeouts; that asks are answered; the pool of blocking asks | `actor/system.go`, `actor/ask.go`, `actor/base_actor.go`, `actor/context.go` |
| `Futures`, `FutureRuns`, `FutureStore` | callbacks, Then and All: as steps, over whole runs, and in place | `actor/future.go` |
| `Breaker` | the circuit breaker over every call history | `actor/breaker.go` |
| `Arithmetic`, `Words`, `Options` | integer facts, Go's uint64 and int64, optional values | |

Inside `SegmentedSteps` a ring call is one step, which may be refused at any time. That this
covers the real ring is a theorem: every run of `RingSteps` is a run of an atomic bounded queue
whose places stay busy for a while after they are claimed (`RingRefinement.EveryRunIsAtomic`),
in which every thread gets, call by call, the same answers (`RingRefinement.AnswersAgree`); and
whatever that queue answers, the chain's one step can answer with the same effect
(`RingRefinement.ChainPutsLikeTheRing`, `RingRefinement.ChainTakesLikeTheRing`). The lanes of
`MailboxSteps` are not queues but these very chains, stepped by `SegmentedSteps` access by
access, and there a place that is claimed but not yet published is withheld from the run loop.
Time, random choices of `select`, and whether an encoder, an append or a delivery succeeds are
inputs of the steps, so every theorem is for all of them.

What the steps follow, access by access: `RingSteps.Advance` is mailbox/ring.go:68-111;
`SegmentedSteps.ProducerStep` and `ConsumerStep` are mailbox/segmented.go:58-96;
`MailboxSteps.ProducerStep` is mailbox/mailbox.go:128-189 and `ConsumerStep` is
actor/base_actor.go:173-185 with mailbox/mailbox.go:193-217; `TokenBucketSteps.Advance` is
actor/ratelimit.go:47-119; `AskSteps.Step` is actor/system.go:230-282 with
actor/base_actor.go:204-227 and actor/context.go:34-43; `WaitTokens.Step` is
actor/ask.go:62-82 with actor/system.go:309-329; `Futures.Step` is actor/future.go:38-130.

## Results that are not what one might expect

- **A disabled rate limit still refuses.** actor/ratelimit.go:46 says that a rate of 0 or less
  always allows; the code refills to the burst and compares. With each thread asking for its own
  number of tokens as often as it likes, no call is ever refused, in any interleaving, if and
  only if the requests of all threads together fit the burst
  (`DisabledLimit.DisabledNeverRefusesIff`); for n threads asking for m each, if and only if
  n * m fits (`DisabledLimit.EqualRequestsIff`). `Wait` for more than the burst never returns
  at any rate (`TokenBuckets.BeyondBurstIsNeverGranted`).
- **The token count can go negative**, exactly when the burst exceeds 2^63 - 1 - 9223372036,
  because a credit is added before the cap is applied; for every other burst it stays between
  0 and the burst in all runs, whatever SetQPS asks for (`TokenBucketSteps.NonNegativeIffNoOverflow`).
- **A one-cell ring would overwrite**; NewRing's minimum of 2 is what prevents it
  (`RingTheorems.CapacityOneOverwrites`). A request above 2^63 makes NewRing's loop run for ever
  (`Rings.DoublingReaches`).
- **An accepted message can be lost when a queue's budget is 2 segments or more**, a mailbox's
  default being 8. A consumer that has found a segment empty moves past it even if producers
  have filled it in the meantime; a whole segment of accepted values is then behind head for
  good. No accepted message is ever lost if and only if the budget is at most 1, where
  NewSegmentedQueue takes 0 as 1 (`SegmentedLoss.NothingIsLostIffOneSegment`). In mailbox terms the run
  loop can be stuck in Wait, with nobody pushing and Len not 0, unless Options.MaxSegments is
  exactly 1; mailbox/mailbox.go:94-97 turns 0 into 8 (`MailboxLoss.StuckMeansEmptyIffOneSegment`).
- **The segment budget is soft under races**: Enqueue compares before it links and counts
  afterwards. In all runs it holds if and only if there is one producer or the budget is 1
  (`SegmentBudget.BudgetHoldsIff`); otherwise n producers can reach maxSeg - 1 + n live
  segments and no more (`SegmentBudget.BoundIsReached`, `SegmentBudget.BudgetUnderRaces`).
- **An empty queue can refuse**: its ring was full when Enqueue looked, and by the time it
  compares the counter the consumer has taken everything. Even with rings that answer exactly,
  this never happens if and only if there are at most two producers and the budget is larger
  than their number (`SegmentRefusal.NeverRefusedEmptyIff`). With three producers and two
  segments or more, links counted late can moreover take the counter below zero, where it reads
  as 2^64 - 1 (`SegmentBudget.WrapsIff`, `SegmentBudget.EmptyQueueRefuses`).
- **A torn log must not be appended to**, though Start goes on after a failed Replay
  (actor/base_actor.go:106) and Replay accepts a log torn inside a header: later appends are all
  replayed if and only if the cut was on a frame boundary (`Wals.LogGoesOnIffNotTorn`). Behind a
  torn header a record shorter than 256 bytes always makes Replay fail
  (`Wals.ShortAppendAfterTornHeader`) and a longer one can make it return a record that nobody
  wrote (`Wals.TornHeaderCanForgeARecord`). Behind a torn payload Replay fails until the later
  appends make up the missing bytes, and then returns them as the end of the torn record
  (`Wals.TornPayloadSwallows`), without an error if they end with it
  (`Wals.TornPayloadCanForgeARecord`).
- **A log cut inside a payload restores nothing at all**: Start drops every record when Replay
  fails (`Restart.PersistCrashRestart`).
- **A replay can block Start for ever** under the Block policy, exactly when the log holds more
  decodable records than the normal lane (`Restart.Actor.Start`).
- **The log keeps refused messages and forgets priorities**: the append comes before the lane,
  and replay pushes everything as normal (`Restart.PersistCrashRestart`).
- **The failure counter of an open breaker can wrap**, after 2^64 - 1 failures, and that is the
  only way its flags stop meaning what they say (`Breakers.MeaningLastsIff`,
  `Breakers.OnlyWrappingBreaksMeaning`).

## Model

| member | source | states |
|---|---|---|
| RingSteps.InitInv | mailbox/ring.go:39-55 | the ring NewRing builds, with capacity 2 or more, satisfies the invariant that ties every cell to the position ranges and every thread's locals to the cells |
| RingSteps.StepKeepsInv | mailbox/ring.go:68-111 | every single atomic access of any thread, with whatever stale locals, keeps that invariant |
| RingSteps.RunKeepsInv | mailbox/ring.go:68-111 | so does every schedule of any number of threads |
| RingSteps.TailIsReady | mailbox/ring.go:74-78 | when a tail CAS succeeds the ring is not full, its cell is free, and every reader of the previous round has left it |
| RingSteps.HeadIsPublished | mailbox/ring.go:100-105 | when a head CAS succeeds the ring is not empty and its cell already holds the value claimed for that position |
| RingSteps.OwnedByOne | mailbox/ring.go:75-77 | the winner of a CAS owns its cell: no other thread is in a state that relies on it |
| RingTheorems.EveryRunIsFifo | mailbox/ring.go:68-111 | over every schedule the winner of the k-th head CAS gets exactly the value of the winner of the k-th tail CAS, never nil, and at most capacity positions are between them |
| RingTheorems.NeverReturnedTwice | mailbox/ring.go:101-105 | a completing dequeue is the first to hand back its position, and hands back the claimed value |
| RingTheorems.QuietRunLosesNothing | mailbox/ring.go:68-111 | once all calls have returned, every claimed value has been handed back once or sits published in its cell, and all other cells are free |
| RingTheorems.StepActsOnQueue | mailbox/ring.go:68-111 | linearisation: each access appends one value to, takes the front of, or does not touch one abstract bounded queue, at its CAS |
| RingTheorems.CallReturnsExactly | mailbox/ring.go:68-111 | of all accesses of a call exactly four kinds make it return, each with its own answer: a loaded number that shows tail current and the cell one round back in use (false), the store that publishes (true), a loaded number that shows head current and unpublished (nil), the store that releases (the value); a lost CAS never does |
| RingTheorems.RetryIsExact | mailbox/ring.go:69-110 | an access sends its call back to the top of the loop if and only if the index has moved past the thread's copy and the thread can see it: at its CAS, or once that position is published, or released |
| RingCalls.OneAnswerPerCall | mailbox/ring.go:68-111 | in every schedule the k-th answer a thread gets is an answer to the k-th call it began, with that call's argument, and only a call under way is still owed one |
| RingCalls.CallsTakeBoundedWork | mailbox/ring.go:68-111 | lock freedom counted: in every schedule of n threads c calls take at most 3 * (n + 1) * c accesses together |
| RingRefinement.EveryRunIsAtomic | mailbox/ring.go:68-111 | every schedule, access by access and told by what each access changed and answered, is a run of one atomic bounded queue in which a put needs a free place that its last reader has left, a take a published front, and a refusal means there was none; both end with the same contents |
| RingRefinement.AnswersAgree | mailbox/ring.go:68-111 | in every schedule the answers and values each thread's calls have returned are, in order, exactly those that queue decided for it, but for a call not yet over |
| RingTheorems.EnqueueRefusalIsExact | mailbox/ring.go:70-82 | a step returns false from Enqueue(v) if and only if it loads the number of a current tail whose position one capacity back is not released |
| RingTheorems.DequeueRefusalIsExact | mailbox/ring.go:96-109 | a step returns nil from Dequeue if and only if it loads the number of a current head that is not published |
| RingTheorems.UndisturbedEnqueueRefusalMeansFull | mailbox/ring.go:70-82 | with no other access unfinished, false means exactly full |
| RingTheorems.UndisturbedDequeueRefusalMeansEmpty | mailbox/ring.go:96-109 | with no other access unfinished, nil means exactly empty |
| RingTheorems.WrappingCountersAgree | mailbox/ring.go:70-75 | in runs of any length, however often the counters have wrapped: while a thread's copy is less than 2^63 - capacity behind, the signed 64-bit differences and CAS comparisons decide as the unbounded counters do |
| RingTheorems.RetryMeansProgress | mailbox/ring.go:69-83 | every pass back to the top of a loop means another thread has moved that index past this thread's copy |
| RingTheorems.ThreadBudget | mailbox/ring.go:69-110 | one thread's retries and wins on an index never exceed the index |
| RingTheorems.IndexCountsWins | mailbox/ring.go:75-101 | an index equals the number of successful CASes on it |
| RingTheorems.RetriesAreBounded | mailbox/ring.go:69-110 | lock freedom counted: in any run of n threads the retries on an index are at most n - 1 times the successful CASes on it |
| RingTheorems.CapacityOneOverwrites | mailbox/ring.go:37-42 | on one cell there is a run in which two enqueues both succeed and the second overwrites the first |
| Rings.DoubledIsPow2 | mailbox/ring.go:43-46 | the doubling variable runs through the powers of two and becomes 0 when it wraps |
| Rings.DoublingReaches | mailbox/ring.go:43-46 | the loop ends if and only if the request is at most 2^63 |
| Rings.RoundUp | mailbox/ring.go:40-46 | its result is the least power of two that is at least 2 and at least the request |
| Rings.Ring.constructor | mailbox/ring.go:39-55 | a valid, empty ring of exactly that capacity |
| Rings.Ring.Index | mailbox/ring.go:71-71 | masking a wrapped counter picks the same cell as the unwrapped position modulo the capacity |
| Rings.EnqueueReads | mailbox/ring.go:72-73 | the wrapping signed difference is 0 with room and negative when full, also across wrap-around |
| Rings.DequeueReads | mailbox/ring.go:98-99 | the wrapping signed difference is -1 when empty and otherwise 0, and then the front is in that cell |
| Rings.Ring.Enqueue | mailbox/ring.go:68-84 | true if and only if fewer than capacity values are held; then the value is appended, else nothing changes |
| Rings.Ring.Dequeue | mailbox/ring.go:94-111 | the front, removed, or nothing exactly when empty |
| SegmentChain.PutIsFifo | mailbox/segmented.go:58-79 | Enqueue appends to one FIFO or changes nothing, and keeps the budget and the full segments in between |
| SegmentChain.TakeIsFifo | mailbox/segmented.go:83-96 | Dequeue takes the front of that FIFO and fails if and only if it is empty |
| SegmentChain.DropsAtMostOne | mailbox/segmented.go:89-95 | one Dequeue recurses at most once |
| SegmentChain.HeldBetween | mailbox/segmented.go:58-96 | all segments but the two ends are full, so the count follows from the ends |
| SegmentChain.RefusalIsNearFull | mailbox/segmented.go:64-66 | a refusal happens only with between max(1, maxSeg - 1) * C and maxSeg * C values held |
| SegmentChain.RoomMeansAccepted | mailbox/segmented.go:58-66 | below max(1, maxSeg - 1) * C values nothing is refused |
| SegmentChain.FreshQueueFills | mailbox/segmented.go:37-66 | a fresh queue accepts exactly the first maxSeg * C values, in order |
| Segmented.SegmentedQueue.constructor | mailbox/segmented.go:37-47 | one empty segment, budget at least 1 |
| Segmented.SegmentedQueue.PutInTail | mailbox/segmented.go:60-63 | one attempt on the tail ring: appended to the last segment if and only if it is not full |
| Segmented.SegmentedQueue.Link | mailbox/segmented.go:70-73 | the new segment becomes the last one and `segs` still equals the chain's length |
| Segmented.SegmentedQueue.DropFront | mailbox/segmented.go:93-94 | the head segment leaves the chain and `segs` still equals the chain's length |
| Segmented.SegmentedQueue.TryEnqueue | mailbox/segmented.go:59-77 | one pass of the loop: accepted, refused, or grown by one empty segment with the same final outcome ahead |
| Segmented.SegmentedQueue.Enqueue | mailbox/segmented.go:58-80 | the linked segments refine the chain: contents grow by the value, or nothing changes on false |
| Segmented.SegmentedQueue.Dequeue | mailbox/segmented.go:83-96 | the front of the contents is removed, or there is none; how many segments were dropped |
| SegmentedSteps.StepKeepsInv | mailbox/segmented.go:58-96 | every access to head, tail, next, segs or a ring, by any producer or the consumer, keeps the invariant that head and tail only move forward and each sender's messages lie in send order along the chain |
| SegmentedSteps.ReceivedInSendOrder | mailbox/segmented.go:58-96 | in every interleaving two messages received from one producer arrive in the order of its calls and never come from the same call |
| SegmentedSteps.ReceivedWasSent | mailbox/segmented.go:58-96 | everything received was sent, with that value, in a call that was not refused |
| SegmentedSteps.ReceivedIsSubsequenceOfSent | actor/base_actor.go:173-185 | with the one run loop consuming, what arrives from each producer is a subsequence of what it enqueued |
| SegmentCalls.RefusedExactly | mailbox/segmented.go:58-79 | a call is refused by exactly one kind of access: its own, of a producer that found its ring full and reads `segs` at or above the budget; never by a lost CAS |
| SegmentCalls.CallEndsExactly | mailbox/segmented.go:58-79 | Enqueue returns exactly when that happens or when a ring takes its value; every other access keeps the call going with the value it was called with |
| SegmentCalls.ClaimedExactly | mailbox/segmented.go:60-63 | a segment gains a message exactly when the call that holds it is answered true, and then that call's own |
| SegmentCalls.DequeueEndsExactly | mailbox/segmented.go:83-96 | Dequeue returns a value exactly when the head segment's ring gives it, that value, and nil exactly when the head segment has no successor |
| SegmentCalls.TailFollowsLinks | mailbox/segmented.go:70-77 | whoever links a segment or finds one linked leaves tail beyond the old last segment |
| SegmentCalls.ReturnsAreBounded | mailbox/segmented.go:59-78 | in every interleaving a producer goes back to the top of the loop at most twice for each segment ever linked by anyone |
| SegmentCalls.EnqueuesTakeBoundedWork | mailbox/segmented.go:58-79 | so c calls of one producer take at most 7 * (c + 2 * l) accesses when l segments have been linked |
| SegmentedLoss.ProducerCounts | mailbox/segmented.go:58-79 | every producer access claims one place or none, and strands it if the segment is already behind head |
| SegmentedLoss.ConsumerCounts | mailbox/segmented.go:83-96 | every consumer access takes one place or none, and moving head strands exactly what the old head segment still holds |
| SegmentedLoss.AcceptedIsSomewhere | mailbox/segmented.go:58-96 | in every interleaving an accepted message is in exactly one of three places: received, at or after head, behind head |
| SegmentedLoss.AcceptedCanBeLost | mailbox/segmented.go:83-95 | for every ring capacity and budget of 2 or more, a run with rings answering exactly, all calls over and none refused, that leaves a whole segment of values behind head |
| SegmentedLoss.NothingIsLostIffOneSegment | mailbox/segmented.go:58-96 | in all runs every accepted message is received or at or after head, if and only if the queue's budget is at most 1 |
| SegmentBudget.BelowBudgetMeansRoom | mailbox/segmented.go:64-66 | when Enqueue finds `segs` below the budget, the live segments leave room in the budget, give or take links not counted yet |
| SegmentBudget.BudgetUnderRaces | mailbox/segmented.go:64-94 | in every interleaving of n producers and the consumer there are at most maxSeg + n - 1 live segments, and `segs` is their number less unfinished links plus an unfinished drop, modulo 2^64 |
| SegmentBudget.BoundIsReached | mailbox/segmented.go:64-73 | for every n, every ring capacity and every budget of 2 or more there is a run, with rings answering exactly, that reaches maxSeg + n - 1 |
| SegmentBudget.BudgetHoldsIff | mailbox/segmented.go:64-73 | in all runs at most maxSeg live segments, if and only if there is one producer or a budget of one |
| SegmentBudget.RefusalUnderRaces | mailbox/segmented.go:58-79 | in every interleaving an access refuses a call of p if and only if it is p's own reading of `segs` while the live segments, less uncounted links and plus uncounted drops, fill the budget or have gone below zero |
| SegmentBudget.EmptyQueueRefuses | mailbox/segmented.go:64-94 | a run in which a queue with one live segment and nothing in it refuses, its counter at 2^64 - 1 |
| SegmentBudget.WrapsIff | mailbox/segmented.go:64-94 | the counter can be below zero at a refusal if and only if there are three producers or more and a budget of two or more |
| SegmentRefusal.NeverRefusedEmptyIff | mailbox/segmented.go:58-96 | in all runs with rings answering exactly no access of any kind refuses a call while the queue holds nothing, if and only if there are at most two producers and the budget exceeds their number |
| SegmentRefusal.EmptyMeansShort | mailbox/segmented.go:60-94 | with rings answering exactly a queue holding nothing has at most two live segments, and one while a drop is uncounted |
| SegmentRefusal.RefusedAtBudgetOne | mailbox/segmented.go:60-66 | for any number of producers and any capacity a run in which a queue of one segment refuses while it holds nothing |
| SegmentRefusal.RefusedAtBudgetTwo | mailbox/segmented.go:60-94 | the same for two or more producers and a budget of two, with nothing wrapped |
| Mailboxes.BackoffIsCapped | mailbox/mailbox.go:165-184 | the Block policy's sleeps double from 1 microsecond and stay at 2048 |
| Mailboxes.Mailbox.constructor | mailbox/mailbox.go:83-109 | an open, empty mailbox with the defaults for zero options |
| Mailboxes.Mailbox.WriteAhead | mailbox/mailbox.go:134-138 | the log grows by what the disk takes of exactly the frame of an encodable persisted message, and the hook's outcome is ignored |
| Mailboxes.Mailbox.RoomByCount | mailbox/mailbox.go:143-163 | room is certain short of the last segment and gone when every segment is full |
| Mailboxes.Mailbox.Push | mailbox/mailbox.go:128-189 | error by policy; the message is the newest of its lane if and only if open and with room, otherwise neither lane changes; logged before delivery whether or not it is accepted |
| Mailboxes.Mailbox.Pop | mailbox/mailbox.go:193-203 | the urgent front if any, else the normal front, else nothing and both lanes are empty |
| Mailboxes.Mailbox.Len | mailbox/mailbox.go:206-206 | the total held by both lanes, as an int64 |
| Mailboxes.Mailbox.Wait | mailbox/mailbox.go:210-217 | true takes the token; false only when closed |
| Mailboxes.Mailbox.LanesAreFifo | mailbox/mailbox.go:128-203 | over any calls, what Pop handed out of a lane is a prefix of what the lane accepted and the rest is still held in order |
| MailboxSteps.StepKeepsInv | mailbox/mailbox.go:128-217 | every access of Push, Pop, Wait or Close, down to each access of the lanes' chains, keeps the invariant on chains, signals and counter |
| MailboxSteps.NoLostWakeUp | mailbox/mailbox.go:143-187 | in every interleaving, with the run loop in Wait and anything at or after head in either lane, a token is there or some Push is between its claim and its notify |
| MailboxSteps.BlockedAndQuietLeavesOnlyStranded | actor/base_actor.go:173-185 | with no Push under way and no token, a run loop in Wait means that both lanes hold nothing it could reach and Len is what is stranded behind their heads |
| MailboxSteps.OneSegmentStrandsNothing | mailbox/segmented.go:64-66 | with a budget of one segment nothing is ever stranded |
| MailboxLoss.StuckMeansEmptyIffOneSegment | mailbox/mailbox.go:94-105 | a run loop stuck in Wait with nobody pushing means Len 0, in all runs of a mailbox that New makes, if and only if Options.MaxSegments is 1 |
| MailboxSteps.QuietLenIsExact | mailbox/mailbox.go:206-206 | with no call under way Len is exactly what the lanes hold and what they have stranded |
| MailboxSteps.LogCoversLanes | mailbox/mailbox.go:134-141 | at every moment each appended envelope ever claimed in a lane is in the log, as often as it has been claimed |
| MailboxSteps.PopKeepsSenderOrder | mailbox/mailbox.go:193-203 | what a lane's Dequeue returns from one producer is a subsequence of what it passed to that lane's Enqueue, in order |
| MailboxOrder.HandledIsWhatWasTaken | actor/base_actor.go:173-182 | in every interleaving the envelopes given to the handler, by priority, with the one Pop may have just returned, are one for one and in order those taken from that priority's lane |
| MailboxOrder.TakesExactlyWhatIsPublished | mailbox/mailbox.go:193-203 | Pop takes a value exactly by an access of the head segment's ring that finds its front claimed and published |
| MailboxPushes.HandledInPushOrder | mailbox/mailbox.go:128-203 | in every interleaving what is handled out of a lane from one producer is a subsequence of its calls of Push: in their order, with their envelopes, and no push twice however often Block retries it |
| MailboxPushes.UrgentComesFirst | mailbox/mailbox.go:193-203 | in every interleaving a normal envelope is handed out only by a Pop that has, earlier in the same call, had nil from the urgent lane |
| MailboxCalls.EnqueueEndsExactly | mailbox/mailbox.go:143-187 | when the lane answers true Push goes on to announce exactly the place it got; when it answers false Block tries again and any other policy returns |
| MailboxCalls.PushEndsExactly | mailbox/mailbox.go:128-189 | Push returns exactly when it finds the mailbox closed, has announced its message, or is refused under a policy other than Block |
| MailboxCalls.ClosedStaysOut | mailbox/mailbox.go:129-133 | in every run from a closed mailbox a push not past its first look passes nothing to a lane, then or ever |
| MailboxCalls.WaitEndsExactly | mailbox/mailbox.go:210-217 | Wait goes on whenever there is a token or the mailbox is closed, true only by taking the token, false only if closed, either of them when both |
| MailboxCalls.StopsOnlyIfClosed | actor/base_actor.go:173-185 | in every run the loop has ended only if Close was called |
| MailboxCalls.LogIsWhatWasAppended | mailbox/mailbox.go:134-138 | in every run the log is exactly the persisted envelopes whose append succeeded, in that order |
| Wals.LengthOfHeader | persistence/wal.go:61-62 | a length below 2^32 survives the four-byte header |
| Wals.ReplayInvertsAppend | persistence/wal.go:52-101 | Replay of what any list of non-empty records below 2^32 bytes appended returns exactly that list |
| Wals.WholeAndTorn | persistence/wal.go:84-98 | every byte position of a log splits it into whole frames and a proper part of the next |
| Wals.ReplayAfterCrash | persistence/wal.go:73-101 | for every cut: all whole records before it if it falls on a boundary or inside a header, an error if inside a payload |
| Wals.ParseAfterCrash | persistence/wal.go:73-101 | whatever is in the file behind a cut log is parsed from the stray bytes of the cut record on |
| Wals.LogGoesOnIffNotTorn | persistence/wal.go:52-101 | for every log and every cut: all lists of later appends are replayed behind the whole records, if and only if the cut is on a frame boundary |
| Wals.ShortAppendAfterTornHeader | persistence/wal.go:84-96 | an append of 1 to 255 bytes to a log torn inside a header always makes Replay fail |
| Wals.TornHeaderCanForgeARecord | persistence/wal.go:84-97 | an instance where an append to a torn log is replayed without error as a record nobody wrote |
| Wals.TornPayloadSwallows | persistence/wal.go:84-101 | for every log cut inside a payload and everything behind it: Replay fails while bytes are missing, and else returns the record with the later bytes as its end and goes on after them |
| Wals.ExactlyMissingForges | persistence/wal.go:73-101 | appending exactly the missing bytes turns the failing log into one that replays without error, with a record nobody wrote |
| Wals.TornPayloadCanForgeARecord | persistence/wal.go:52-101 | an instance: a 10-byte record cut after 3 bytes of payload swallows the frame of the next append |
| Wals.ZeroLengthIsSkipped | persistence/wal.go:84-92 | a zero length anywhere in a log costs no record before or after it |
| Wals.Wal.Append | persistence/wal.go:52-68 | nothing for an empty record, an error when closed, else exactly one frame at the end, or a prefix of it and an error when the disk fails |
| Wals.Wal.Replay | persistence/wal.go:73-101 | the read loop computes the parse of the whole file, leaves the offset at its end when the log is open, and fails when closed or cut inside a payload |
| Restart.LogRestoresMessages | actor/base_actor.go:103-112 | encode, append, replay, decode is the identity on lists of messages, given a serializer that round-trips |
| Restart.CutLogRestores | actor/base_actor.go:106-112 | the same for a log cut at any byte: the messages wholly before the cut, or a refusal if the cut is inside a payload |
| Restart.BadRecordsAreSkipped | actor/base_actor.go:107-111 | a record that does not decode costs no message before or after it |
| Restart.Actor.PushReplayed | actor/base_actor.go:110-110 | one replayed message enters the normal lane if that takes anything and has room, and appends nothing to the log |
| Restart.Actor.Refill | actor/base_actor.go:106-112 | the loop feeds the decodable records in order to the normal lane, and stops for ever at the first refusal under the Block policy |
| Restart.Actor.Start | actor/base_actor.go:103-120 | for every mailbox, policy and log: the normal lane holds what it held and then the first decoded records, as many as it accepts; on an empty lane that is up to maxSeg * C of them; the log is unchanged; and the call hangs if and only if the policy is Block, the mailbox is open and a record is refused |
| Restart.PushPersisted | mailbox/mailbox.go:134-138 | whatever the log held, it gains the persisted pushes in order, whatever their priorities and whether or not a lane took them |
| Restart.PersistCrashRestart | actor/base_actor.go:77-120 | replay of earlier messages, more pushes, the log cut at any byte and a restart end to end: under every policy the messages wholly before the cut are back in push order in the normal lane, as far as it can hold them; none if the cut is inside a payload or the policy is unknown; and the actor runs, unless the policy is Block and they do not fit |
| TokenBuckets.WrappedProduct | actor/ratelimit.go:101-102 | wrap-around of the elapsed time does not change the wrapped product |
| TokenBuckets.CreditIsEarned | actor/ratelimit.go:101-105 | however the arithmetic wraps, a credit never exceeds what the elapsed time earned, nor 9223372036 |
| TokenBuckets.CreditIsRounded | actor/ratelimit.go:101-102 | without overflow a credit is more than the exact amount minus one |
| TokenBuckets.PositiveCreditIsHalf | actor/ratelimit.go:102-105 | a positive credit is more than half the exact amount |
| TokenBuckets.AskedStaysSane | actor/ratelimit.go:57-119 | a call keeps 0 <= tokens <= burst when the largest credit cannot overflow |
| TokenBuckets.BeyondBurstIsNeverGranted | actor/ratelimit.go:64-67 | a request above the burst is refused at every rate and time |
| TokenBuckets.CallsBalance | actor/ratelimit.go:47-119 | over every series of calls and clock readings at rates from 1 to R the tokens are exactly what there was plus what refills put in less what was granted, and all that was put in has been earned |
| TokenBuckets.CallsNeverGetMoreThanEarned | actor/ratelimit.go:47-119 | so granted plus left is at most the first contents plus R * elapsed / 10^9 |
| TokenBuckets.FailingPollsAreShort | actor/ratelimit.go:57-119 | while Allow(n) keeps failing with n at most the burst, less than (2n - 1) * 10^9 / rate nanoseconds have passed since the last refill |
| TokenBuckets.TokenBucket.constructor | actor/ratelimit.go:31-43 | a full bucket whose burst defaults to the rate, or 1 |
| TokenBuckets.TokenBucket.SetQPS | actor/ratelimit.go:47-53 | credits the old rate first, then switches, refilling when disabled |
| TokenBuckets.TokenBucket.Allow | actor/ratelimit.go:57-72 | the new state and the answer are those of the value-level call |
| TokenBuckets.TokenBucket.Refill | actor/ratelimit.go:90-119 | the new state is that of the value-level refill, wrap-around included |
| TokenBuckets.TokenBucket.Wait | actor/ratelimit.go:76-86 | terminates: once the clock readings span (2n - 1) * 10^9 / rate nanoseconds one poll is granted, and all earlier ones failed |
| TokenBucketSteps.StepKeepsInv | actor/ratelimit.go:47-119 | every atomic access of any thread keeps the books balanced |
| TokenBucketSteps.NeverMoreThanEarned | actor/ratelimit.go:57-119 | in every interleaving with rates between 1 and R: requests answered true + tokens + credit claimed but not added <= burst + R * (lastNS - t0) / 10^9, and tokens <= burst |
| TokenBucketSteps.NonNegativeIffNoOverflow | actor/ratelimit.go:47-119 | 0 <= tokens <= burst in all runs, whatever rates the bucket has and SetQPS asks for, if and only if the largest credit can be added to the burst in an int64 |
| TokenBucketSteps.AllowEndsExactly | actor/ratelimit.go:57-72 | Allow(n) returns false exactly when it reads fewer than n tokens and true exactly when its CAS succeeds, which takes n; every other access, a lost CAS included, keeps the call going |
| TokenBucketSteps.RefillEndsExactly | actor/ratelimit.go:90-119 | a refill is over exactly when it has reset a disabled bucket, finds no credit, has lost the CAS on lastNS or has added its credit; a lost CAS on the tokens tries again |
| TokenBucketSteps.CreditIsKept | actor/ratelimit.go:57-119 | each access changes granted + tokens + claimed credit by exactly what it newly claims less what goes over the burst |
| TokenBucketSolo.AllowAlone | actor/ratelimit.go:57-119 | from every state, an Allow no one interferes with ends with the state and answer of the object's call |
| TokenBucketSolo.SetQPSAlone | actor/ratelimit.go:47-53 | the same for SetQPS |
| DisabledLimit.DisabledNeverRefusesIff | actor/ratelimit.go:45-72 | at a rate of 0 or less, each thread asking for its own number of tokens: no schedule ever answers a call false if and only if all requests together are at most the burst |
| DisabledLimit.EqualRequestsIff | actor/ratelimit.go:57-96 | for n threads asking for m tokens each: if and only if n * m is at most the burst |
| DisabledLimit.StepKeepsInv | actor/ratelimit.go:57-96 | with limiting disabled every atomic access keeps the tokens between the burst less one request of each thread that must refill before it can take again, and the burst |
| AskSteps.StepKeepsInv | actor/system.go:230-282 | every critical section, delivery, response and timer step keeps the invariant on who holds each future and where each response came from |
| AskSteps.EachFutureIsResolvedOnce | actor/system.go:247-282 | in every interleaving a tracked future is in the table, or held by exactly one resolver, or completed, and complete is called once for a completed one and never otherwise |
| AskSteps.AnswersFitTheirRequests | actor/context.go:34-43 | its value is its own timeout or a response with its id that Respond built in a handler given exactly that request |
| AskSteps.NoTimedAskPendsForever | actor/system.go:267-281 | once the timer's callback is over, the future is completed if and only if no run loop that took it has still to complete it |
| AskSteps.TakerDecides | actor/system.go:248-257 | whoever takes the future under the lock decides its value, whatever happens before and after it completes |
| AskSteps.LateResponseChangesNothing | actor/system.go:248-258 | once a run loop has found its id gone from the table, whatever runs before that loop goes on, its next step changes nothing but frees it |
| AskSteps.ResultsAreFinal | actor/system.go:247-282 | a completed future keeps its value through every further step |
| AskAnswers.AskIsAnswered | actor/ask.go:8-32 | from every state an ask whose request and response are delivered to free run loops before its timer fires ends with exactly the value its handler gave Respond |
| AskAnswers.RespondCompletes | actor/context.go:34-43 | from every state: with the request of a pending ask at a handler and the asker's loop free, a delivered Respond completes the ask's future with that value |
| AskAnswers.AskReachesHandler | actor/ask.go:24-31 | from every state: a delivered ask is with the target's handler, its request unchanged, its id pending and its timer armed if it has one |
| AskAnswers.FirstTakeWins | actor/system.go:247-258 | a response looked up while its id is pending decides the value, whatever the timer or anyone does until and after its loop goes on |
| AskAnswers.FirstTimerWins | actor/system.go:263-282 | a timer that finds its id pending decides for a timeout, whatever responses arrive |
| AskAnswers.MailIsKept | actor/system.go:230-243 | a delivered request or response is addressed to its actor and stays, one for one, until that actor's free loop pops it or it is lost |
| AskAnswers.HandlersAreGiven | actor/base_actor.go:204-227 | a handler is given exactly the requests its free run loop pops |
| AskAnswers.RequestsAreDeliveredOnce | actor/ask.go:30-31 | in every run the request of an ask is delivered at most once |
| WaitTokens.StepKeepsInv | actor/system.go:311-329 | every acquire, degradation and release keeps tokens equal to the asks that hold one |
| WaitTokens.TokensAreConserved | actor/ask.go:75-82 | in every interleaving tokens equal the asks between acquire and release and never exceed the capacity, no release finds the channel empty, and an ask degrades if and only if it may and asks while the pool is full |
| WaitTokens.CallsGoOn | actor/ask.go:62-82 | an ask gets a token exactly while one is left, else degrades if it may and waits if not; a refused breaker keeps it out; and it always returns |
| Futures.FinishPlaces | actor/future.go:38-52 | completing a future moves each of its callbacks from its list to those due, once, and no other |
| Futures.CallKeepsInv | actor/future.go:49-51 | running any due callback next, in whatever order, keeps every callback in exactly one place |
| Futures.RegisterKeepsInv | actor/future.go:56-67 | OnComplete lists the callback or, on a done future, makes it due with the stored value |
| Futures.CompleteKeepsInv | actor/future.go:38-52 | completing a promise keeps the invariant, and a second value changes nothing |
| Futures.ResultsAreMeant | actor/future.go:98-130 | a completed future has the value its combinators mean, even halfway through a cascade, and every future with a meaning is completed when nothing is left to run |
| Futures.RunsOnce | actor/future.go:49-64 | a callback has run at most once, with the first value; exactly once when nothing is left to run |
| Futures.LeftCountsInputs | actor/future.go:113-129 | `left` is the number of incomplete inputs and All is complete exactly when its last input is |
| Futures.CombinatorsMeanWhatTheySay | actor/future.go:38-130 | the three together for every set of futures, order of completions and interleaving of callbacks |
| FutureRuns.HistoryIsTheCalls | actor/future.go:38-130 | in every run the futures, the callbacks on them and the promises' values are exactly those of the calls made, the first value counting |
| FutureRuns.StepSettles | actor/future.go:38-130 | every callback registered or run brings the end nearer, so no order of them goes on for ever |
| FutureRuns.CallbacksSettle | actor/future.go:38-130 | from every state the callbacks there are can be run until none is left, and then everything that should have happened has |
| FutureStores.FutureStore.Finish | actor/future.go:38-52 | the nested, depth-first calls of complete terminate and leave every callback in one place |
| FutureStores.FutureStore.FillSlot | actor/future.go:120-126 | the closure of All fills its slot and completes the result when it is the last |
| FutureStores.FutureStore.OnComplete | actor/future.go:56-67 | registered, or called at once when done |
| FutureStores.FutureStore.Complete | actor/future.go:38-52 | on return every future depending on the promise has its meaning, from the first value only, and every callback of a completed future has run once |
| FutureStores.FutureStore.Watch | actor/future.go:56-67 | the same for a new user callback |
| FutureStores.FutureStore.Then | actor/future.go:98-102 | the same for a new mapped future |
| FutureStores.FutureStore.All | actor/future.go:107-130 | the same for a new joined future, no inputs included |
| Breakers.Fresh | actor/breaker.go:46-56 | a new breaker is closed with no failures, and 0 arguments take the defaults |
| Breakers.HistoryIsConsistent | actor/breaker.go:61-108 | over every history of fewer than 2^64 calls: closed if and only if failures < threshold, half-open if and only if the probe flag is set |
| Breakers.OnlyWrappingBreaksMeaning | actor/breaker.go:93-101 | a single call breaks that meaning if and only if it wraps the counter of an open breaker |
| Breakers.MeaningLastsIff | actor/breaker.go:46-108 | from every new breaker the meaning holds through all histories of so many calls if and only if that is fewer than 2^64 |
| Breakers.AdmittedIff | actor/breaker.go:46-108 | over every history of fewer than 2^64 calls a request is let through if and only if fewer failures than the threshold have been reported since the last success, or nothing has been let through since the last failure and that is openFor ago |
| Breakers.FailureTrips | actor/breaker.go:93-108 | a failure trips the breaker if and only if it is not closed or the failure reaches the threshold |
| Breakers.ProbesAreSpaced | actor/breaker.go:61-82 | once tripped and until the next success the first admission is openFor away and later ones openFor apart |
| Breakers.WindowBound | actor/breaker.go:61-82 | a window of length T admits at most T / openFor + 1 requests |
| Breakers.OpenBreakerIsSparing | actor/breaker.go:61-108 | the same from any history's tripping failure on, for every later stretch without a success |
| Breakers.CircuitBreaker.Allow | actor/breaker.go:61-82 | answer and new state are those of the value-level call |
| Breakers.CircuitBreaker.OnFailure | actor/breaker.go:93-101 | the new state is that of the value-level failure |
| Breakers.CircuitBreaker.OnSuccess | actor/breaker.go:85-89 | closed with no failures |

## Left out

- RingSteps.StepKeepsInv: counters are unbounded in the step machine; by WrappingCountersAgree this is exact while no thread sleeps through 2^63 - capacity moves of the index it has copied.
- Rings.Ring.Enqueue: one caller at a time, so the CAS succeeds and the retry loop ends on its first pass; the loop itself is in RingSteps.
- Segmented.SegmentedQueue.Enqueue: one caller at a time, so next of the tail is nil; the other branch is in SegmentedSteps.
- SegmentedSteps.StepKeepsInv: one consumer, as an actor has; no order is claimed for several, because head is stored without a CAS.
- Mailboxes.Mailbox.Push: the Block policy is followed for `patience` sleeps, since with no one else running its loop never ends; then the result is Blocked.
- Restart.Actor.Start: registering the actor and running a second Start are not modelled; nobody else pushes during the replay.
- TokenBuckets.TokenBucket.Allow: one caller at a time, so the CAS loops end on their first pass; the loops are in TokenBucketSteps, which agrees with it by TokenBucketSolo.AllowAlone.
- TokenBucketSteps.NeverMoreThanEarned: rates of 0 or less are excluded, because they reset the bucket by design; DisabledLimit is about those.
- Breakers.HistoryIsConsistent: each call is one step; a store of the probe flag that follows another caller's CAS is not modelled, and no claim is made that a half-open breaker always recovers.
- Futures.CombinatorsMeanWhatTheySay: complete up to its callbacks, OnComplete and each callback are one step each, so an OnComplete that races complete between its check and its append is not modelled. `left` is an unbounded integer, exact for fewer than 2^31 inputs. The functions given to Then are total and have no side effects.
- FutureStores.FutureStore.Complete: futures are named by number in one store instead of being separate objects, so garbage collection and aliasing of Future pointers are not captured. Await and the result channel are not modelled.
- AskSteps.StepKeepsInv: correlation ids are taken to be fresh (actor/id.go:24), delivery may lose but not duplicate a message, and SendAsync without a system, which completes its future at once with an error, is not modelled.
- Persisted requests: a replayed request is pushed as a user message; how handlers deal with it is not modelled.
- Concurrent double Close of a mailbox, and any promise that all messages are handled before an actor stops: Wait may choose the closed signal while a message is queued.
- SegmentedQueue.Capacity, which multiplies the unrounded segment capacity, and LenSegments: accessors.
- The supervisor, the registry, actor references, metrics, the HTTP endpoint, the gRPC transport and the gob codec. Real files are byte sequences; real time is an input.
