# Proofs about the batch consumer, the outbox and the timers of brokerfx

This Dafny project models six protocols of the repository and proves what they promise. It stands on its own:
`dafny verify dfyconfig.toml` checks all of it.

**Transactional batch handler with ordered bisection** (`BatchTypes`, `Attempts`, `Groups`, `Bisection`,
`BatchHandler`, `Links`). The database is a set of claimed keys and a log of committed effects; a transaction is
run-then-commit-or-restore. The handler is an adversary (`Oracle`): it may answer anything, refuse, panic, or return
any verdicts, in every transaction anew, while other consumers claim keys and claims, releases and commits fail.
`Bisection` gives bisection by index, by order-key groups and inside one group as functions of the batch state;
`BatchHandler.Handler` is the imperative code (loops over the budget, in-place results, maps and rollback), proved
equal to these functions. On top of them:
`Soundness` and `Progress` (every result slot is written once, every answer has a reason, claims and effects agree),
`Cost`, `Depth` and `Transactions` (how many transactions, which ones, and what a retry costs), `Endings` (how each of them
ends, and no ack and no claim without effects), `OrderSafety` (no effect overtakes a failure of its order key), `Refinement`, `Sequential` and
`OneByOne` (bisection refines processing one message at a time), `BatchRuns` (whole calls), `OrderCondition` (exactly
which batches keep the order against every handler), `Interleaving` and `Arrivals` (calls of any number of consumers whose
transactions interleave on one table).

**Settling** (`Settling`, `Ladder`, `ReturnOrder`, `FrameSettlement`). One settle pass turns results into ack, term and nak with
delay floors; `Ladder` says what a message is told at each delivery; `ReturnOrder` says for which settings the answers of the handler come back in order; a frame is settled
once for all of its elements, under every interleaving of callers.

**Frames** (`MsgPack`, `Frames`, `FramePacking`, `GreedyPacking`, `FrameIds`, `Decimal`). The greedy packer, the wire format and its decoder. The
MessagePack length families, strings, byte strings and the element map are concrete, following the "array format
family", "str format family", "bin format family" and "map format family" sections of the MessagePack specification.
A Dafny `char` below 256 stands for one byte of a Go string.

**Outbox** (`LatestOnly`, `OutboxSteps`, `OutboxSafety`, `OutboxDrain`, `OutboxParking`, `OutboxExclusive`,
`OutboxWinners`, `OutboxSuccession`, `OutboxVersions`, `OutboxWaiting`, `OutboxPublish`, `OutboxRelay`). Every SQL statement is one atomic step on the table; several relays, stall reclaims,
drain transactions with row locks, crashes, failed settle writes and lost broker answers interleave freely. Writes by id
have no state check, as in the code. `OutboxRelay` holds the relay's own loops,
and `OutboxWaiting` says when a row is tried again.

**Timers** (`TimerLineage`, `TimerRuns`, `TimerActor`: entries in a key-value bucket with revision-guarded deletes; `TimerLeases`,
`TimerPoller`: table rows with leases). Watch events and reads may be late, repeated and stale, and clocks of claim
statements are arbitrary.

**Subjects and backoff** (`Subjects`, `Partitions`, `Backoff`). Pattern overlap, disjoint partitions, and delay
arithmetic with explicit 64-bit wrap-around.

Some promises do not hold of the code as they stand; the project names the input and proves the exact condition:

- A repeat of an earlier message of the batch may be committed while that message is held. When equal deduplication keys
  have equal order keys, a batch keeps its order against every handler if and only if deduplication is off, the handler
  gives no verdicts of its own, or only the first message of an order key is repeated in it
  (`OrderCondition.OrderKeptIff`, with the offending handler in `OrderCondition.RepeatOvertakes`).
- A refused poison hand-off comes back after the first delay but reports no delay to the messages behind it. The messages
  of an order key come back in order, whatever the handlers answer, if and only if there is no poison handler or the
  first delivery already exhausts MaxAttempts and MaxDeliver (`ReturnOrder.ReturnsInOrderIff`,
  `ReturnOrder.RefusedOvertakes`); for accepted settings, if and only if there is no poison handler
  (`ReturnOrder.AcceptedMayOvertake`).
- An event whose wire message gets no answer from the producer reads as published. Every sent event that reads as
  published was answered, and without an error, if and only if the producer answers for every wire message, framed or
  not (`OutboxPublish.PublishedIsAnsweredIff`, `FramePacking.PublishedIsAnsweredIff`). A drain always does
  (`OutboxPublish.PublishWithin`).
- The lease of a poller is cut to whole milliseconds. Leases of one row increase if and only if there is a whole
  millisecond (`TimerLeases.LeasesIncreaseIff`), and firings never overlap if and only if the longest allowed lag, the
  handler and the delete fit into it (`TimerLeases.NeverOverlapsIff`, `TimerLeases.AcceptedFractionOverlaps`).
- A delete with an old lease leaves its own row alone, but takes any other row that the application wrote with the same key
  and that is due at exactly that lease, and nothing else (`TimerLeases.StaleDeleteIsHarmless`).
- The doubling of retry delays is exact if and only if the maximum is at most 2^62 (`Backoff.ExactIff`).
- A message is never wasted on its last delivery if and only if MaxAttempts lies between 1 and MaxDeliver
  (`Settling.LastDeliveryNeverWasted`). Unreadable metadata counts as a first delivery, so such a last delivery is
  wasted unless both bounds are 1 (`Settling.UnreadableDeliveryIsWasted`).
- The array header is right for a count if and only if it is below 2^32 (`MsgPack.ArrayHeaderReads`).

## Model

| member | source | states |
|---|---|---|
| `BatchHandler.Handler.constructor` | pkg/nats/jetstream/consumer/batch/in_tx.go:59-67 | a call starts with the normalised retry budget and delay, empty results and no effects |
| `BatchHandler.Handler.FirstOfEachKey` | pkg/nats/jetstream/consumer/batch/bisect.go:279-306 | the selection keeps the first message of every key of the subset, with its key |
| `BatchHandler.Handler.ClaimKeys` | pkg/nats/jetstream/consumer/batch/claim.go:29-73 | exactly the keys that were not in the table are inserted and reported as claimed |
| `BatchHandler.Handler.ClaimFresh` | pkg/nats/jetstream/consumer/batch/bisect.go:266-347 | fresh messages are those neither claimed before nor repeated in the subset; all keys of the subset are claimed afterwards |
| `BatchHandler.Handler.FindViolations` | pkg/nats/jetstream/consumer/batch/order_groups.go:92-128 | blocked are exactly the positions after the first failure of the order keys that have an ack after a failure |
| `BatchHandler.Handler.Judge` | pkg/nats/jetstream/consumer/batch/bisect.go:225-260 | verdicts by message; the claims of non-acked messages, and no others, are deleted again |
| `BatchHandler.Handler.Transact` | pkg/nats/jetstream/consumer/batch/bisect.go:98-169 | the body of a transaction ends as the adversary and the order rule say, and on success keeps claims and effects of acked messages only |
| `BatchHandler.Handler.Attempt` | pkg/nats/jetstream/consumer/batch/bisect.go:89-185 | a transaction that does not commit restores the table and the effects |
| `BatchHandler.Handler.Record` | pkg/nats/jetstream/consumer/batch/bisect.go:75-87 | only the slots of the subset are written, with the verdict or an ack |
| `BatchHandler.Handler.GroupByOrderKey` | pkg/nats/jetstream/consumer/batch/order_groups.go:17-42 | the map of positions gives the same groups as appending each message to the group of its order key |
| `BatchHandler.Handler.Flatten` | pkg/nats/jetstream/consumer/batch/order_groups.go:44-55 | the sorted concatenation of the groups |
| `BatchHandler.Handler.Without` | pkg/nats/jetstream/consumer/batch/order_groups.go:57-90 | groups lose the removed indexes, and empty groups disappear |
| `BatchHandler.Handler.FailedIn` | pkg/nats/jetstream/consumer/batch/order_groups.go:156-164 | tells whether some message of the group has a non-ack verdict |
| `BatchHandler.Handler.Bisect` | pkg/nats/jetstream/consumer/batch/bisect.go:12-73 | the retry loop with two halves on a shared budget is the bisection function; it terminates and only spends budget |
| `BatchHandler.Handler.BisectGroups` | pkg/nats/jetstream/consumer/batch/bisect_groups.go:10-99 | the loop over violations, retries and halves of the groups is the group bisection function |
| `BatchHandler.Handler.Ordered` | pkg/nats/jetstream/consumer/batch/bisect_groups.go:101-207 | the loop inside one order key is the ordered bisection function, with the same answer to its caller |
| `BatchHandler.Handler.Link` | pkg/nats/jetstream/consumer/batch/order_groups.go:139-154 | every non-acked result names the last non-acked message of its order key before it |
| `BatchHandler.Handler.Handle` | pkg/nats/jetstream/consumer/batch/in_tx.go:75-124 | the answers, claims, effects and budget of a whole call are those of the functions the theorems are about |
| `BatchHandler.FreshIsNotIn` | pkg/nats/jetstream/consumer/batch/bisect.go:266-347 | first-of-each-key and then insert-if-absent selects the same messages as asking for each whether it is fresh |
| `Links.LastFailed` | pkg/nats/jetstream/consumer/batch/order_groups.go:139-154 | the last failed message before a position: it failed, has the key, and everything of the key after it is acked |
| `Groups.GroupsOfValid` | pkg/nats/jetstream/consumer/batch/order_groups.go:17-42 | the groups split the batch: one non-empty ascending group for each order key, every message in one |
| `Groups.WithoutMember` | pkg/nats/jetstream/consumer/batch/order_groups.go:57-90 | exactly the removed indexes leave the groups |
| `Groups.WithoutValid` | pkg/nats/jetstream/consumer/batch/order_groups.go:57-90 | removing indexes keeps one ascending group for each order key |
| `AttemptFacts.NoViolation` | pkg/nats/jetstream/consumer/batch/order_groups.go:92-128 | without a reported violation an ack follows only acks of its order key |
| `AttemptFacts.ViolationAt` | pkg/nats/jetstream/consumer/batch/order_groups.go:92-128 | a position is blocked if and only if its key is violated and an earlier message of the key failed |
| `Bisection.ViolationBlocks` | pkg/nats/jetstream/consumer/batch/bisect.go:143-156 | a reported violation is not empty and lies inside the attempted subset, so the retry loops end |
| `Soundness.BisectSound` | pkg/nats/jetstream/consumer/batch/bisect.go:12-73 | index bisection writes each slot of its subset once, justifies every answer, and commits effects only of acked messages, each key once |
| `Soundness.OrderedSound` | pkg/nats/jetstream/consumer/batch/bisect_groups.go:101-207 | ordered bisection does the same for its group, and answers true if and only if some message of it was not acked |
| `Soundness.BisectGroupsSound` | pkg/nats/jetstream/consumer/batch/bisect_groups.go:10-99 | group bisection does the same for all groups |
| `Cost.BisectCost` | pkg/nats/jetstream/consumer/batch/bisect.go:12-73 | bisecting n messages opens at most 2n-1 transactions that no retry paid for |
| `Cost.OrderedCost` | pkg/nats/jetstream/consumer/batch/bisect_groups.go:101-207 | so does bisecting one group, order violations included |
| `Cost.HandleCost` | pkg/nats/jetstream/consumer/batch/in_tx.go:75-124 | a batch of n messages opens at most 2n-1 transactions and one more for each retry |
| `Transactions.RetriesAreSpent` | pkg/nats/jetstream/consumer/batch/bisect.go:34-43 | in a whole call a transient error before the budget is used up is tried again for the same messages in the next transaction, one after it is the answer of its messages; the budget left is what the transient errors have not used |
| `Transactions.TransientAnswerNeedsMore` | pkg/nats/jetstream/consumer/batch/bisect_groups.go:53-62 | a message is answered with a transient error only if more transactions of the call ended in one than the budget allows; every other answer comes from a transaction that ended otherwise |
| `Transactions.CommitsFollowTheBatch` | pkg/nats/jetstream/consumer/batch/bisect_groups.go:10-99 | the first transaction is for the whole batch, and the committed ones follow it: by index when there is no order key, else by the first message of the order key |
| `Depth.LevelsDouble` | pkg/nats/jetstream/consumer/batch/bisect.go:56-71 | n messages can be halved at most k times if n is at most 2^k |
| `Depth.BisectDepth` | pkg/nats/jetstream/consumer/batch/bisect.go:56-71 | a message is tried in vain at most once more often than its subset can be halved |
| `Depth.BisectGroupsDepth` | pkg/nats/jetstream/consumer/batch/bisect_groups.go:82-97 | with order keys, at most once more often than the groups and then the messages of one can be halved |
| `Depth.HandleDepth` | pkg/nats/jetstream/consumer/batch/in_tx.go:75-124 | so in a whole call every message is in logarithmically many transactions that fail with an error that is not transient |
| `Endings.EveryEndIsTold` | pkg/nats/jetstream/consumer/batch/bisect.go:89-185 | every transaction of a call commits if and only if claims, handler, order rule, release and commit go well, with each verdict for its own message, and else rolls back with the first thing that went wrong; all fresh acked messages of a commit have their effects |
| `Endings.EndsOneWay` | pkg/nats/jetstream/consumer/batch/bisect.go:89-185 | these ends exclude each other, and a fault has one cause |
| `Endings.ClaimsHaveEffects` | pkg/nats/jetstream/consumer/batch/bisect.go:225-260 | no key is claimed after a call without effects: it was claimed before, by others meanwhile, or the call committed a message with it |
| `Endings.AckedHasEffects` | pkg/nats/jetstream/consumer/batch/bisect.go:75-185 | an acked message was committed by the call; with deduplication its key was committed before, by others or by the call, unless it repeats an earlier message that was not acked |
| `Endings.AnswersInFull` | pkg/nats/jetstream/consumer/batch/transient_result.go:3-12 | held messages and transient errors are told the transient delay when there is one, and a held one carries the sentinel that keeps its attempts |
| `Endings.BudgetOfOptions` | pkg/nats/jetstream/consumer/batch/in_tx.go:59-64 | without a budget in the options exactly two transient errors of a call are retried, with a negative one none |
| `OrderSafety.OrderedSafe` | pkg/nats/jetstream/consumer/batch/bisect_groups.go:101-207 | ordered bisection commits a message only behind acked messages of its order key, if no earlier message has its deduplication key or the handler gives no verdicts |
| `OrderSafety.BisectGroupsSafe` | pkg/nats/jetstream/consumer/batch/bisect_groups.go:10-207 | group bisection keeps the order of every order key in the same sense, against every handler |
| `BatchRuns.EverySlotOnce` | pkg/nats/jetstream/consumer/batch/bisect_groups.go:10-207 | every result slot of a batch is written exactly once |
| `BatchRuns.EveryAnswerHasAReason` | pkg/nats/jetstream/consumer/batch/bisect.go:12-87 | every answer comes from an attempt that was for the message, or is a hold behind an earlier failure of its order key |
| `BatchRuns.AckedIsClaimed` | pkg/nats/jetstream/consumer/batch/bisect.go:225-347 | an acked message holds its claim afterwards, or repeats an earlier message that was not acked |
| `BatchRuns.CommittedBehindAcked` | pkg/nats/jetstream/consumer/batch/bisect_groups.go:101-207 | in a whole call a committed message follows only acked messages of its order key, if no earlier message has its deduplication key or the handler gives no verdicts |
| `OrderCondition.OrderKeptIff` | pkg/nats/jetstream/consumer/batch/bisect_groups.go:10-207 | when equal deduplication keys have equal order keys, a batch keeps its order against every handler, claimed set and budget if and only if deduplication is off, the handler gives no verdicts, or no message but the first of its order key is repeated |
| `OrderCondition.UndisturbedAlways` | pkg/nats/jetstream/consumer/batch/bisect_groups.go:10-207 | for every batch: when each message is the first with its deduplication key or repeats the first of its order key, the order is kept against every handler |
| `OrderCondition.RepeatOvertakes` | pkg/nats/jetstream/consumer/batch/bisect.go:75-87 | in every batch that repeats another message, a handler that naks the first fresh message once gets a repeat committed while the message it repeats is held |
| `OrderCondition.HeadRepeatsNeverCommit` | pkg/nats/jetstream/consumer/batch/bisect_groups.go:10-207 | a repeat of the first message of an order key is never committed |
| `BatchRuns.CommittedIsAcked` | pkg/nats/jetstream/consumer/batch/bisect.go:89-185 | effects are committed only for acked messages, once for each key, and only for keys that were not claimed before |
| `Interleaving.EffectsAtMostOnce` | pkg/nats/jetstream/consumer/batch/bisect.go:89-347 | over every interleaving of the transactions of any calls of any consumers, with redeliveries and repeats, every key has its effects committed at most once, and never when it was claimed before |
| `Interleaving.CallIsItsTransactions` | pkg/nats/jetstream/consumer/batch/bisect.go:12-185 | a whole call that hears what the others claim is its transactions on the shared table, with those of the others in between: same outcomes, same table at its end, same effects in the same order |
| `Arrivals.EveryInterleavingIsHeard` | pkg/nats/jetstream/consumer/batch/bisect.go:12-185 | whatever transactions of other calls end between those of the call, some arrivals are exactly what they claim |
| `Arrivals.CallAmongOthers` | pkg/nats/jetstream/consumer/batch/bisect.go:12-185 | so every call among any others behaves as the batch state says, and every key still has its effects at most once |
| `Interleaving.HandleSteps` | pkg/nats/jetstream/consumer/batch/in_tx.go:75-124 | a call touches the table and the effects only in the transactions of its trace |
| `OneByOne.OrderedRefinesOneByOne` | pkg/nats/jetstream/consumer/batch/bisect_groups.go:10-207 | when Apply fails exactly on bad messages, ordered bisection gives the results, claims and per-key effects of processing one message at a time |
| `OneByOne.PlainBisectAcksTheGood` | pkg/nats/jetstream/consumer/batch/bisect.go:12-73 | under the same handler plain bisection acks exactly the messages that are not fresh and bad, and commits the fresh ones in batch order |
| `OneByOne.ReferenceAnswers` | pkg/nats/jetstream/consumer/batch/bisect_groups.go:101-207 | one at a time: the first fresh bad message of a key gets its own error, later ones are blocked, all others are acked |
| `Refinement.OrderedRefines` | pkg/nats/jetstream/consumer/batch/bisect_groups.go:101-207 | inside one order key exactly the messages before the first fresh bad one are committed |
| `Sequential.BisectGroupsRefines` | pkg/nats/jetstream/consumer/batch/bisect_groups.go:10-99 | group bisection does so for every group, whatever the other groups do |
| `Settling.Consumer.SendPoison` | pkg/nats/jetstream/consumer/batch/send_poison.go:11-68 | the hand-off comes first; the message is terminated when it is accepted or there is no handler, else sent back with the first delay |
| `Settling.Consumer.Hold` | pkg/nats/jetstream/consumer/batch/hold.go:12-59 | a held message comes back not before its floor, and is handed off on its last server delivery |
| `Settling.Consumer.Retry` | pkg/nats/jetstream/consumer/batch/settle.go:127-203 | hold, poison, exhausted attempts and delays in the order of the code |
| `Settling.Consumer.Apply` | pkg/nats/jetstream/consumer/batch/settle.go:93-125 | every verdict leads to the calls and the reported delay of its decision |
| `Settling.Consumer.FrameStarts` | pkg/nats/jetstream/consumer/batch/settle.go:61-77 | each element knows the first element of its run |
| `Settling.Consumer.Settle` | pkg/nats/jetstream/consumer/batch/settle.go:13-59 | a pass makes exactly the calls of the per-message decisions, in order, and counts their kinds |
| `Settling.FloorCovers` | pkg/nats/jetstream/consumer/batch/settle.go:79-91 | the floor of a message covers the delay of every element of an earlier failed message of its order key, through everything in between |
| `Settling.ReturnTimeOrder` | pkg/nats/jetstream/consumer/batch/settle.go:13-91 | of two messages of one order key in different frames, the later one and its frame come back not before the frame of the earlier one |
| `Settling.UnpackedIsContiguous` | pkg/nats/jetstream/consumer/batch/unpack.go:11-60 | unpacking replaces each frame by its elements in place, so the elements of a frame stand next to each other |
| `Settling.UnpackedIsWhole` | pkg/nats/jetstream/consumer/batch/unpack.go:11-60 | unpacking loses and adds nothing: every element is behind those of all messages before it, with the frame and the delivery count of its message |
| `ReturnOrder.ReturnsInOrderIff` | pkg/nats/jetstream/consumer/batch/settle.go:13-91 | for all handlers, claimed sets, deliveries and poison handlers the answers of an order key come back in order if and only if nothing can be refused in between |
| `ReturnOrder.RefusedOvertakes` | pkg/nats/jetstream/consumer/batch/send_poison.go:32-54 | for every other configuration, a batch whose second answer is refused and comes back before the first |
| `ReturnOrder.AcceptedMayOvertake` | pkg/nats/jetstream/consumer/batch/validate.go:76-83 | for accepted settings the order holds if and only if there is no poison handler |
| `ReturnOrder.HandlerDecides` | pkg/nats/jetstream/consumer/batch/in_tx.go:75-124 | verdicts that do not break the order are exactly the answers of the call |
| `Settling.LastDeliveryNeverWasted` | pkg/nats/jetstream/consumer/batch/hold.go:18-31 | a non-acked message on its last server delivery, when its count can be read, is always handed off if and only if MaxDeliver is off or 1 <= MaxAttempts <= MaxDeliver |
| `Settling.UnreadableDeliveryIsWasted` | pkg/nats/jetstream/consumer/batch/hold.go:18-31 | a delivery whose count cannot be read is handed off for every failed result if and only if MaxDeliver and MaxAttempts are both 1; accepted settings waste it |
| `Settling.AcceptedNeverWastes` | pkg/nats/jetstream/consumer/batch/validate.go:76-83 | settings with resolved attempts are accepted if and only if they never waste a last delivery and leave one for a refused hand-off |
| `Settling.TermOnlyAfterHandOff` | pkg/nats/jetstream/consumer/batch/send_poison.go:11-68 | term if and only if the message was handed off and not refused; ack if and only if the result was an ack or a skip |
| `Ladder.SentBackIff` | pkg/nats/jetstream/consumer/batch/settle.go:127-165 | a message comes back exactly when it is not acked and neither terminal, poisoned nor out of deliveries, or when its hand-off is refused, and then after the first delay; a held message is measured against MaxDeliver, any other against MaxAttempts |
| `Ladder.DelayOfDelivery` | pkg/nats/jetstream/consumer/batch/delay_for_delivery.go:5-15 | at its d-th delivery it is told the d-th delay, the last one from there on and the first one when the count is unreadable or 0, or its own positive delay, which a held message brings with any verdict and another one with NakDelay only; a longer floor wins |
| `Ladder.DefaultUsesEachDelayOnce` | pkg/nats/jetstream/consumer/batch/resolve.go:101-111 | with the default MaxAttempts every delay is waited for at exactly one delivery, in order, and the next delivery hands the message off |
| `Ladder.FloorIsExact` | pkg/nats/jetstream/consumer/batch/settle.go:79-91 | the floor is exactly the longest of what the shared message referred to was told so far and had to wait for, and 0 without a reference |
| `Ladder.CallsFollowTheProtocol` | pkg/nats/jetstream/consumer/batch/send_poison.go:11-68 | every message is told its answer once, in batch order; a hand-off stands directly before the answer to its message, and every term of a consumer with a poison handler stands behind an accepted one |
| `Ladder.ReasonOfHandOff` | pkg/nats/jetstream/consumer/batch/hold.go:18-30 | the poison handler gets the error of the result with all its sentinels, marked as exhausted for a held message or one that ran out of attempts without an error |
| `Ladder.KindsTell` | pkg/nats/jetstream/consumer/batch/settle_kind.go:13-28 | the kind a message is counted under tells what happened to it |
| `Ladder.MissingResultIsAFailure` | pkg/nats/jetstream/consumer/batch/settle.go:22-27 | a message the handler gave no result for is not acked: it is told what a nak with the missing-result sentinel is told |
| `FrameSettlement.FrameState.SettleElement` | pkg/nats/frame/frame_state.go:26-47 | one element counts once; a repeat is reported and changes nothing |
| `FrameSettlement.FrameState.FinishFrame` | pkg/nats/frame/frame_state.go:49-68 | the shared message is settled by the failed flag, the delay and the double flag |
| `FrameSettlement.FrameState.Resolve` | pkg/nats/frame/frame_state.go:70-88 | an undisturbed call settles the element, and the frame when it was the last one |
| `FrameSettlement.SettledOnceWhenAllDone` | pkg/nats/frame/frame_state.go:26-88 | under every interleaving the shared message is settled at most once, exactly when all elements are done |
| `FrameSettlement.SettledByOutcomes` | pkg/nats/frame/frame_state.go:49-68 | it is nak'ed with the longest delay if and only if some element asked for a nak |
| `FrameSettlement.SettlementConfluent` | pkg/nats/frame/frame_state.go:26-88 | the order of the callers does not matter |
| `FrameSettlement.ConfirmedIff` | pkg/nats/frame/frame_state.go:47-88 | the ack of a frame waits for the server if and only if no element was nak'ed and the call that settled the last open element waits for it |
| `FrameSettlement.RepeatChangesNothing` | pkg/nats/frame/frame_state.go:34-36 | a repeated outcome changes neither the frame nor its settlement |
| `MsgPack.ArrayHeaderReads` | pkg/nats/frame/join.go:33-60 | the array header reads back as its count if and only if the count is below 2^32; it has at most five bytes |
| `MsgPack.ElementReads` | pkg/nats/frame/marshal.go:5-7 | an encoded element reads back with its subject, headers and payload, whatever follows it |
| `MsgPack.HeaderBytes` | pkg/nats/frame/join.go:33-60 | the headers are the bytes of the MessagePack specification for every length of each family |
| `MsgPack.FamiliesApart` | pkg/nats/frame/join.go:33-60 | no family reads what another one writes, and none writes nil |
| `MsgPack.ElementBytes` | pkg/nats/frame/element.go:3-7 | the bytes of an element are a map of subject, headers and payload in this order, with these names and types |
| `Frames.MsgPackSelfDelimiting` | pkg/nats/frame/decode.go:40-49 | the element encoding meets what the frame lemmas ask of a codec |
| `Frames.Join` | pkg/nats/frame/join.go:9-31 | the payload is the array header and the elements in order |
| `Frames.Decode` | pkg/nats/frame/decode.go:10-62 | the cursor loop accepts exactly a count above zero, that many elements and nothing behind them |
| `Frames.JoinedDecodes` | pkg/nats/frame/decode.go:51-58 | a joined payload decodes to its elements, and with any byte behind it is refused |
| `Frames.WrongCountRefused` | pkg/nats/frame/decode.go:14-49 | a payload with any other array count is refused |
| `Frames.UnpackMessage` | pkg/nats/frame/unpack.go:12-81 | version, payload, count header and subjects are checked in order; elements get index headers |
| `Frames.FrameRoundTrip` | pkg/nats/frame/unpack.go:12-81 | a frame unpacks to exactly its elements in order with indexes from 0; trailing bytes, other counts and other count headers are refused |
| `Frames.VersionDecides` | pkg/nats/frame/unpack.go:16-26 | a message whose version header is missing or empty comes back as itself, and one with an unknown version is refused |
| `Frames.UnpackedAreTheElements` | pkg/nats/frame/unpack.go:28-75 | the unpacked messages are the elements, each with its index header and otherwise its own headers; an element of another subject is refused |
| `Decimal.ItoaInjective` | pkg/nats/frame/wire_headers.go:9-15 | different counts have different texts, so a count header identifies the count |
| `Decimal.ItoaIsDecimal` | pkg/nats/frame/unpack.go:30-37 | the texts are decimal digits without a leading zero |
| `FramePacking.IsFrameable` | pkg/outbox/frameable.go:10-56 | the loops over patterns, prefixes and headers decide what the frame lemmas call frameable |
| `FramePacking.EncodeElement` | pkg/outbox/frame_events.go:159-210 | an event has an element when it is frameable, encodes and fits a frame alone |
| `FramePacking.PackNext` | pkg/outbox/frame_events.go:30-71 | one step of the packer on its open groups, updated in place |
| `FramePacking.WireEvents` | pkg/outbox/frame_events.go:82-157 | groups of one stay messages of their own, others become frames with the ids of their events |
| `FramePacking.FrameEvents` | pkg/outbox/frame_events.go:15-80 | the pass over the events publishes them unframed or as the groups the lemmas are about |
| `FramePacking.PackOneKeeps` | pkg/outbox/frame_events.go:30-71 | every step keeps row order by subject, good groups, and that an open group is the last one of its subject |
| `FramePacking.PackingIsOrderedPartition` | pkg/outbox/frame_events.go:15-80 | every event is in exactly one wire message, and the wire messages give the events of every subject in row order |
| `FramePacking.FramesAreWithinLimits` | pkg/outbox/frame_events.go:45-70 | a frame holds only frameable events of one subject, at most maxElements of them, in at most maxBytes |
| `FramePacking.RelayFrameRoundTrip` | pkg/outbox/frame_events.go:82-157 | unpacking a frame of the relay gives its member events in row order with their headers and indexes |
| `GreedyPacking.FramesAreFull` | pkg/outbox/frame_events.go:47-70 | of two messages of a subject that follow each other with encoded elements the first has all the elements it may have, or the first element of the second would make it too long; only an event that cannot be an element is kept out |
| `GreedyPacking.KeptOutIff` | pkg/outbox/frameable.go:10-56 | an event is kept out of frames exactly when no pattern has its subject, it belongs to a key-value bucket, has no id, is latest-only, carries a header the server acts on, or cannot be encoded within the limit |
| `GreedyPacking.PublishesTheGroups` | pkg/outbox/frame_events.go:73-81 | the wire messages are exactly those of the packed groups, also when there is no frame, and the events of a group travel in its message |
| `GreedyPacking.WireIds` | pkg/outbox/frame_events.go:101-124 | a frame is named after the ids of its events in row order, none of them empty, and an event that travels alone keeps its subject, payload and headers |
| `GreedyPacking.RepackedFrameIsKnown` | pkg/nats/frame/msg_id.go:10-19 | two frames have the same id header if and only if their events have the same ids, in whatever order |
| `FrameIds.SameIdIff` | pkg/nats/frame/msg_id.go:10-19 | the id does not depend on the order of the elements, and as far as the hash tells texts apart different elements have different ids |
| `GreedyPacking.CaseDoesNotMatter` | pkg/outbox/frameable.go:58-65 | headers the server acts on are recognised in every spelling |
| `GreedyPacking.ServerHeadersKeepOut` | pkg/outbox/frameable.go:58-65 | these are the expected, TTL and rollup headers, and not the message id |
| `FramePacking.BehindOneMessage` | pkg/outbox/publish_framed.go:12-24 | every event is behind exactly one wire message |
| `FramePacking.PublishFramed` | pkg/outbox/publish_framed.go:3-27 | every event gets the answer to the one message it is behind; a missing answer reads as published |
| `FramePacking.PublishedIsAnsweredIff` | pkg/outbox/publish_framed.go:12-24 | every event that reads as published has an answer to its wire message, and one without an error, if and only if there are at least as many answers as wire messages |
| `LatestOnly.LatestIndexes` | pkg/outbox/latest_only.go:48-91 | the one-pass fold finds, for each latest-only subject, the last event of maximum version if all have one, else the last event |
| `LatestOnly.OneWinner` | pkg/outbox/latest_only.go:48-91 | every subject has exactly one such winner |
| `LatestOnly.SupersededHasWinner` | pkg/outbox/latest_only.go:48-91 | a superseded event has a winner on its subject in the same list that is sent |
| `OutboxSafety.StepSafe` | pkg/outbox/relay.go:542-609 | every statement of every relay keeps that only accepted or latest-only rows are closed |
| `OutboxSafety.NothingIsLost` | pkg/outbox/relay.go:542-609 | over every interleaving, a row outside the latest-only subjects is done or gone only if the broker accepted it |
| `OutboxDrain.OthersWait` | pkg/outbox/tx_drain.go:18-24 | no step of anyone else changes a row that a drain has claimed |
| `OutboxDrain.DrainIsExact` | pkg/outbox/tx_drain.go:115-299 | a commit removes exactly the published rows, restores the others as claimed but for the failure, and touches no other row; a rollback changes nothing |
| `OutboxParking.WaitingRowsHaveAttempts` | pkg/outbox/relay.go:363-411 | on every interleaving a pending or in-flight row has attempts below MaxAttempts |
| `OutboxParking.OnlyCountedFailuresPark` | pkg/outbox/tx_drain.go:206-234 | a row is parked only by a counted failure that uses its last attempt, never by a lost connection or an unknown outcome of a drain |
| `OutboxExclusive.ParkedExactlyAtLimit` | pkg/outbox/relay.go:363-411 | while no two relays hold a row, its attempts are the counted failures since insert or requeue, and it is parked exactly at the limit |
| `OutboxExclusive.OneRelayIsExclusive` | pkg/outbox/claim_v2.go:43-128 | a single relay never holds a row twice, whatever it reclaims and however often it restarts |
| `OutboxWinners.WinnerStays` | pkg/outbox/relay_batched.go:94-167 | when a batch is published, the winner of a superseded row, as the specification of winners defines it, is stored by the broker or its row stays in the table |
| `OutboxSuccession.ClosedRowsGiveWay` | pkg/outbox/relay_batched.go:94-167 | while no two relays hold a row, a row closed without being accepted was beaten by the winner of its batch, and the chain of winners ends with a row that the broker accepted or that stays in the table; and a row of its subject stays, or a message of its subject was accepted after its insert |
| `OutboxVersions.NewestVersionSurvives` | pkg/outbox/latest_only.go:48-91 | when every row of the subject carries a version, the end of that chain is not older than the closed row |
| `OutboxWaiting.FailedRowWaits` | pkg/outbox/relay.go:373-403 | over every run: after a counted failure with a next attempt time that does not park the row, and until somebody who had the row in hand writes it, no claim takes it before that time and it is due from then on |
| `OutboxWaiting.LostConnectionIsDueAtOnce` | pkg/outbox/relay.go:371-378 | a lost connection costs neither an attempt nor time: the row is pending and due at any clock |
| `OutboxWaiting.DrainRecords` | pkg/outbox/tx_drain.go:206-234 | a drain counts a refusal, and parks the row at the limit, but not an unknown outcome; both leave the row waiting for its time |
| `OutboxWaiting.DrainedRowWaits` | pkg/outbox/tx_drain.go:211-217 | over every run such a row is not claimed before its time either |
| `OutboxWaiting.TakenFromThenOn` | pkg/outbox/claim_v2.go:13-23 | a pending row can be claimed exactly from its next attempt time on |
| `OutboxWaiting.RevertedOnce` | pkg/outbox/relay.go:363-411 | the settle code writes every failed row once, for its own failure, and no other row |
| `OutboxWaiting.DelayOfFailedRow` | pkg/outbox/relay.go:371-378 | the time of a failed row is the clock plus a delay between min(base * 2^attempts, max) and one and a half of it, exact without jitter |
| `OutboxWaiting.DelayOfDrainedRow` | pkg/outbox/tx_drain.go:211-217 | so it is in a drain after a refusal; after an unknown outcome it is at least the publish timeout and five seconds |
| `OutboxWaiting.ClaimedRowIsKept` | pkg/outbox/claim_v2.go:25-33 | over every run a claimed row stays with its relay until it is settled or longer than the stall time has passed, and can be reclaimed then |
| `OutboxWaiting.ReclaimedRowIsDue` | pkg/outbox/claim_v2.go:25-33 | over every run a row taken back from a stalled relay is due at once with the attempts it had |
| `OutboxWaiting.PublishedRowsAreClosed` | pkg/outbox/relay.go:583-609 | published rows are gone or done, and no other row changes |
| `OutboxWaiting.PublishSorts` | pkg/outbox/relay_batched.go:94-167 | after a publish a superseded event counts as published whatever happens to the others, and a sent one by its own answer |
| `OutboxWaiting.NewRowsAreDue` | pkg/outbox/claim_v2.go:15-16 | new and requeued rows are due at once with all their attempts |
| `OutboxWaiting.OthersChangeNoRow` | pkg/outbox/tx_drain.go:115-163 | publishing, a drain before its commit, a rollback, a crash and a failed write change no row |
| `OutboxPublish.PublishBatched` | pkg/outbox/relay_batched.go:94-167 | superseded events count as published, signer errors as failed, and every sent event gets the answer to the wire message it travels in |
| `OutboxPublish.PublishedIsAnsweredIff` | pkg/outbox/relay_batched.go:142-163 | every sent event that reads as published has an answer to its wire message, and one without an error, if and only if the producer answered for every wire message, framed or not |
| `OutboxPublish.PublishIsAStep` | pkg/outbox/relay_batched.go:94-167 | with an answer for every wire message the code is one publish step, which accepts exactly the rows in the wire messages that the broker stored |
| `OutboxPublish.PublishWithin` | pkg/outbox/tx_drain_publish.go:15-96 | in a drain every message has an answer, and a missing or late one is a timeout, never a success |
| `OutboxRelay.Split` | pkg/outbox/relay_batched.go:59-79 | outcomes are split into published rows and failures, in order |
| `OutboxRelay.Table.RevertFailed` | pkg/outbox/relay.go:363-411 | failures are written one by one with the attempts of the claim, the text of their error and the clock plus the delay of their attempts |
| `OutboxRelay.Table.SettleOutcomes` | pkg/outbox/relay.go:542-609 | failures first, each with a row in the retries table when there is one, then the published rows in one statement, which leaves the table the steps leave |
| `OutboxRelay.Table.DrainBatch` | pkg/outbox/tx_drain.go:190-299 | taking all rows away and putting the failed ones back is removing exactly the published rows; each failure is in the retries table when there is one |
| `OutboxRelay.SettleIsTheSteps` | pkg/outbox/relay.go:542-609 | undisturbed, the atomic statements leave exactly the table of the settle code |
| `Backoff.ComputeDelay` | pkg/outbox/relay.go:45-66 | the doubling loop with its early return computes the specified delay on 64-bit integers |
| `Backoff.ExactIff` | pkg/outbox/relay.go:45-66 | with a maximum the delay is min(base * 2^(attempt-1), max) for every base and attempt if and only if the maximum is at most 2^62 |
| `Backoff.UnboundedDelay` | pkg/outbox/relay.go:53-59 | without a maximum the base is doubled modulo 2^64, exact while it fits |
| `Backoff.JitterBounds` | pkg/outbox/retry_delay.go:23-39 | jitter never shortens a delay, stays below one and a half of it, never wraps, and leaves delays below 2 alone; without jitter the delay is unchanged |
| `Backoff.RetryDelayBounds` | pkg/outbox/retry_delay.go:8-14 | a retry delay lies between the exact delay and one and a half of it, and is exact without jitter |
| `Backoff.UnknownDelayBounds` | pkg/outbox/retry_delay.go:16-21 | after an unknown outcome the delay is at least the publish timeout and five seconds, and below one and a half of the longer one |
| `TimerActor.Cluster.Update` | pkg/timedactor/actor.go:262-268 | a revision-guarded write changes the bucket only while its revision is the live one |
| `TimerActor.Cluster.RemoveRevision` | pkg/timedactor/remove_key.go:9-30 | a revision-guarded delete removes the key only while its revision is the live one |
| `TimerActor.Cluster.Add` | pkg/timedactor/actor.go:158-193 | an add writes a new revision that starts a lineage |
| `TimerActor.Cluster.AcquireHold` | pkg/timedactor/actor.go:227-283 | a hold moves the expiry of the revision it read, if that is still live |
| `TimerActor.Cluster.ReleaseHold` | pkg/timedactor/actor.go:287-333 | a release brings back the original entry only while the held revision is live |
| `TimerActor.Cluster.HandleWatchEntry` | pkg/timedactor/actor.go:576-607 | a delete marker stops the timer of its key, a put schedules its revision |
| `TimerActor.Cluster.ScheduleTimer` | pkg/timedactor/actor.go:591-633 | a put schedules a timer for its revision, due at its expiry or at once |
| `TimerActor.Cluster.TryFireCallback` | pkg/timedactor/actor.go:654-702 | callbacks run only after a confirmed delete of the live revision; an unclear answer is retried later |
| `TimerActor.Cluster.RetryLater` | pkg/timedactor/retry_later.go:5-52 | a retry is scheduled when rescans are on and the key has no timer by then |
| `TimerActor.Cluster.RescanOverdueTimers` | pkg/timedactor/actor.go:755-818 | a rescan tries overdue keys and schedules the others, skipping the keys that had a timer |
| `TimerLineage.HoldDeadline` | pkg/timedactor/hold_deadline.go:5-16 | the later of the original expiry and now plus the maximum hold |
| `TimerLineage.HoldMovesExpiry` | pkg/timedactor/actor.go:253-279 | on every run after a successful hold no earlier revision of the key fires, and the held one, with the metadata and lineage of the original, fires neither before the hold deadline nor before the original expiry |
| `TimerLineage.StepKept` | pkg/timedactor/actor.go:158-360 | every step keeps lineages, timers, holds and fires consistent |
| `TimerLineage.LineageFiresAtMostOnce` | pkg/timedactor/actor.go:654-702 | over every interleaving at most one round of callbacks runs for all revisions that descend from one Add, with its metadata and not before the expiry |
| `TimerLineage.OnlyLiveRevisionsFire` | pkg/timedactor/actor.go:654-702 | on every run a timer for a superseded revision never fires: what fires after a step is for a revision not older than any written for its key up to that step |
| `TimerLineage.RestoreKeepsLaterWrites` | pkg/timedactor/actor.go:299-333 | the release of a hold restores exactly the original entry, and never overwrites a later Add, Hold or Clear |
| `TimerRuns.AddFiresAfterTimeout` | pkg/timedactor/actor.go:158-193 | on every run after an Add nothing older of the key fires, and whatever fires for the Add, held and restored or not, has its metadata and is at least the timeout after it |
| `TimerRuns.WatchedAddIsDue` | pkg/timedactor/actor.go:576-633 | a replica that has seen the revision of the Add, and whose timer of the key nothing touched since, has a timer for it that is due once the timeout is over; while the revision is live the callbacks then run with the metadata of the Add |
| `TimerRuns.UnansweredIsRetried` | pkg/timedactor/retry_later.go:5-52 | a try without an answer is repeated for the same revision exactly when the check interval is over |
| `TimerRuns.ClearCancels` | pkg/timedactor/actor.go:341-358 | on every run after a Clear no revision written before fires, whatever timers the replicas still have |
| `TimerRuns.HoldGivesBack` | pkg/timedactor/actor.go:287-333 | on every run the release of a held revision that is still live makes the original expiry, metadata and lineage live again |
| `TimerRuns.StopsOwnTimers` | pkg/timedactor/actor.go:576-585 | a delete marker stops the timer of its key on its replica only |
| `TimerActor.RescanFindsLost` | pkg/timedactor/actor.go:780-817 | a rescan tries every listed overdue key without a timer and gives every other one a timer for its expiry |
| `TimerActor.RescanLeavesTracked` | pkg/timedactor/actor.go:756-786 | a rescan leaves the keys that had a timer, and the timers of the other replicas |
| `TimerPoller.Table.Claim` | pkg/pgtimer/queries.go:63-79 | the oldest due rows of known names, at most limit, each with its lease written; fewer only when no due row is left |
| `TimerPoller.Table.Delete` | pkg/pgtimer/queries.go:81-88 | exactly the rows with the key and the exact lease of the timer are deleted |
| `TimerPoller.Poller.Reserve` | pkg/pgtimer/loop.go:46-64 | one slot and every further free one up to the batch size |
| `TimerPoller.Poller.ClaimReserved` | pkg/pgtimer/loop.go:18-23 | each claimed timer takes over one reserved slot and the other slots are free again; a claim that reports an error gives none, and leaves the rows alone or, when only its answer got lost, leased |
| `TimerPoller.Poller.Dispatch` | pkg/pgtimer/loop.go:35-37 | the next claimed timer starts to fire on the slot it has |
| `TimerPoller.Poller.Round` | pkg/pgtimer/loop.go:10-44 | an undisturbed round starts one firing for each claimed timer, in order, and loses none; its parts keep the slots right when firings end between them |
| `TimerPoller.Poller.Fire` | pkg/pgtimer/fire.go:11-53 | at any point of the loop: rows are deleted only after the handler returned nil, also when the answer gets lost, and the slot is free again in every case |
| `TimerPoller.ClaimIsTakes` | pkg/pgtimer/claim.go:17-62 | the claim statement is one atomic claim for each of the rows it takes |
| `TimerPoller.ClaimTakesTheDue` | pkg/pgtimer/queries.go:63-79 | a claim takes rows that are due, of a known timer and not locked, each once; such a row is left only at the limit, and is not older than a taken one; no other row changes |
| `TimerPoller.ClaimRuns` | pkg/pgtimer/claim.go:17-62 | every claim of the poller is such a sequence of atomic claims, none of them refused |
| `TimerLeases.LeasesIncreaseIff` | pkg/pgtimer/queries.go:72-74 | claims of a row carry strictly increasing leases, whatever the clocks, if and only if the lease has a whole millisecond |
| `TimerLeases.StaleDeleteIsHarmless` | pkg/pgtimer/fire.go:76-93 | the delete of a claim that is not the last one of its row leaves that row alone; it takes exactly the other rows of the same key that are due at the old lease, so none while keys are unique |
| `TimerLeases.RowGoesWithItsLease` | pkg/pgtimer/fire.go:24-27 | a row disappears only after a nil handler return of a claim of its key whose lease is in it |
| `TimerLeases.NeverOverlapsIff` | pkg/pgtimer/resolve.go:94-136 | over all runs with timed dispatch, return and delete, the handler and the delete of a timely firing are over before the next claim of the row if and only if lag, handler and delete fit into the whole milliseconds of the lease |
| `TimerLeases.AcceptedWholeMilliseconds` | pkg/pgtimer/resolve.go:94-136 | accepted settings with a lease of whole milliseconds are safe |
| `TimerLeases.AcceptedFractionOverlaps` | pkg/pgtimer/claim.go:24-29 | accepted settings with a fraction of a millisecond can overlap |
| `Subjects.SubjectMatches` | pkg/outbox/subject_matches.go:5-30 | the loop over tokens is pattern matching with one-token and tail wildcards |
| `Subjects.MatchesAnyPattern` | pkg/outbox/subject_matches.go:32-46 | some pattern of the list matches |
| `Subjects.SubjectsOverlap` | pkg/nats/jetstream/consumer/consumer-opts-builder/subjects_overlap.go:5-27 | the loop over both token lists is the overlap of the patterns |
| `Subjects.SplitOfJoin` | pkg/nats/jetstream/consumer/consumer-opts-builder/subjects_overlap.go:9-16 | every list of dot-free tokens is the split of a subject |
| `Subjects.OverlapIsExact` | pkg/nats/jetstream/consumer/consumer-opts-builder/subjects_overlap.go:5-27 | patterns overlap if and only if some concrete subject matches both |
| `Partitions.CheckOverlap` | pkg/nats/jetstream/consumer/consumer-opts-builder/partition_configs.go:105-132 | a partition is refused if and only if one of its filters overlaps an earlier one, and the refusal names an overlapping owner |
| `Partitions.PartitionConfigs` | pkg/nats/jetstream/consumer/consumer-opts-builder/partition_configs.go:12-78 | configurations are given if and only if count, names, filters and group are valid and no two filters overlap; a refusal names the first check that fails, of the first partition that fails one |
| `Partitions.SubjectHasOneOwner` | pkg/nats/jetstream/consumer/consumer-opts-builder/partition_configs.go:105-132 | every subject matches at most one filter of at most one partition |
| `Partitions.ApartIffNoSharedSubject` | pkg/nats/jetstream/consumer/consumer-opts-builder/partition_configs.go:105-132 | the overlap check passes if and only if no concrete subject matches two filters |
| `Partitions.NamesApart` | pkg/nats/jetstream/consumer/consumer-opts-builder/partition_configs.go:80-103 | the consumers of two partitions share neither a name nor a durable name |
| `Partitions.ConfigCarries` | pkg/nats/jetstream/consumer/consumer-opts-builder/partition_configs.go:80-103 | a configuration receives the subjects of all filters of its partition, is pinned to the group, and has the names of the base with the number of the partition |
| `Partitions.AcceptedConfigsPartition` | pkg/nats/jetstream/consumer/consumer-opts-builder/partition_configs.go:12-78 | of the accepted configurations exactly one receives a subject that a filter was given for |
| `Partitions.FiltersValidIff` | pkg/nats/jetstream/consumer/internal/durable/validate_filters.go:20-40 | filters are valid exactly when each has some character that is not white space and no two are equal |
| `Partitions.GroupNames` | pkg/nats/jetstream/consumer/internal/durable/validate_pinned.go:13 | group names have one to sixteen of the allowed characters, and no dot, blank or wildcard |

## Left out

- Errors of the batch database are one of claim, release and commit; a lost connection in the middle of a statement is one of these.
- NATS, JetStream and Postgres clients, dependency injection, logging, tracing, metrics and option parsing: no effect on the protocols.
- SQL text, quoting, index creation and schema detection: only the meaning of the statements is kept; ORDER BY and LIMIT of the outbox claims are left to the adversary, which picks any due rows.
- The legacy-schema relay path and the retention cleanup of PARKED and of processed rows: they weaken the invariants by design.
- The counter that switches tx-drain off after three failures, the reclaim timer and pauses: the model lets every relay choose any step at any time.
- The channels and goroutines of publishWithin and processBatch: the answers arrive as one sequence, in the position of their message.
- OrderCondition.OrderKeptIff: is about batches in which equal deduplication keys have equal order keys. When one deduplication key occurs under two order keys the condition is proved to be enough (`OrderCondition.UndisturbedAlways`) but not needed: whether a repeat can overtake then also depends on where the group list is halved.
- Element bodies that another MessagePack encoder would write (other key orders, unknown keys, nil values): the decoder of the model reads the shape that the relay writes; the frame lemmas hold for every self-delimiting element codec.
- Hashes and signatures: SHA-256 is a function from texts to texts, a signer accepts an event or answers with any error.
- The hand-off of a frame that cannot be unpacked, which settles the whole message before its batch: here it only gives no messages.
- Frame heartbeats (`progress`), the panic path that isolates the messages of a batch, and handlers that settle a message themselves.
- Timer entries whose payload cannot be parsed, and the callbacks' subscriber matching: one round of callbacks is one fire.
- replywait, the replay publisher and the per-message consumer: input and output with easy properties.
