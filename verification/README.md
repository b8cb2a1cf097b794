# A verified model of the sedsprintf_rs relay core

sedsprintf_rs carries telemetry packets between boards. A relay receives packets on one side, forwards
them to others, retransmits what a hop loses, keeps its memory within a fixed budget, learns which boards
are reachable where, and shares a network clock. This project models that core in Dafny and proves what it
keeps, over every input and every run. The model was written from the program's text; nothing was executed.

| module | models |
|---|---|
| `ReliableTypes`, `ReliableSender`, `ReliableReceiver` | the two ends of one reliable stream of a hop, as functions and as objects updated in place |
| `ReliableSystem`, `ReliableReplay`, `ReliableGap` | both ends with a lossy, repeating, reordering link between them; what retries and marks are worth; numbers that never reach the link |
| `ReliableReplies`, `ReliableRecords`, `ReliableProgress`, `ReliableHeldBack` | what the receiver answers and keeps; what the fields of a record say about the run; when a stream can still move on; what a partial ACK costs |
| `RecentIds`, `ReliableHandOff` | the memory of recent packets, and the way from release to fan-out in a relay with several links |
| `BoundedDeques` | the byte-bounded priority queue |
| `DiscoveryRoutes`, `QueueBudget`, `RelayQueues` | the relay's six stores under one memory budget |
| `RouteSelection`, `RouteShares`, `RoutePlan`, `PlanRuns`, `RecencyCaches` | which sides an item goes to, and how many items share them; return routes and end-to-end acknowledgements |
| `LittleEndian`, `Uleb128`, `EndpointBitmap`, `WireFrame` | the parts of a frame, its encoder and its four parsers |
| `WireLayout`, `WireRoundTrip`, `WireAgreement`, `WireAcceptance`, `HeaderRewrite`, `WireCodec` | what encoder, parsers and in-place header rewrite have to do with one another; the loops that run them |
| `PacketHash`, `PacketIds` | the hash behind packet IDs, and which packets it tells apart |
| `CivilDate`, `NetworkTime`, `SlewedClock`, `TimeSample`, `TimeLeader` | calendar arithmetic, the slewed clock, four-timestamp sampling, leader election |
| `Topology`, `TopologyCodec`, `TopologyAcceptance` | merging of board lists, and their payload format |
| `CanonicalLists`, `Basics`, `Wrappers` | sorted duplicate-free lists, small shared facts, failure-carrying values |

Operations that the program performs step by step appear twice: as a function that says what the operation
does to the state, and as a method with the program's own loops, proved to do exactly that. Properties are
proved about the functions and therefore hold of the methods. What the environment decides (TX results, what
the budget admits or reclaims, arrival of messages, clock readings) is a parameter of each step, and the
theorems over runs are about every choice of them. Checksum, compression and text validity are
arbitrary functions; of compression it is assumed only that decompressing gives back what was compressed, in
the stated length.

## Main results

- A hop releases exactly the frames that its peer numbered, in order, once each and unaltered, whatever the
  link and the memory budget do; a sender forgets a frame only if the peer has it or its retries are spent; how
  many replays were queued for those retries is determined exactly.
- Every reply is exact: a partial ACK names a frame that the receiver has held, a record's time is when its frame
  was last handed to the link, and a timeout charges or abandons a frame exactly if that was long enough ago and nobody marked or
  reported it since. A waiting stream can move on if and only if the missing frame has been on the link or its sender
  can still repeat it.
- What is released over a relay's only link is all passed on, as long as ACKs find room, dispatches succeed and no two
  released frames within the reach of its memory have one ID; in general, whether a release loses a frame that is
  new to the relay is decided exactly.
- The shared budget is never exceeded in any run; room is made exactly when the item fits beside the
  recent-ID reservation, always from the largest store, and every push ends as its queue alone decides.
- An item goes exactly where live routes, overrides, typed rules and link-local limits let it go; and successive items
  share the sides that could take them exactly by weight, by measured bandwidth, or in turn.
- A prioritized push keeps the longest old prefix that fits and never evicts a strictly higher priority.
- Weighted selection gives each side exactly its share of every full window of selections, across the wrap of
  its counter too if and only if the weights allow it.
- Every packet survives encoding up to the order of its endpoints, all parsers agree on whatever decodes, whatever
  decodes can be encoded again without change, and no chain of header rewrites, short of an ACK-only header, changes what
  a frame says.
- A packet's ID is one hash over all its parts, and no step of the hash loses anything: packets that differ in one
  byte of the payload or of the sender's name never have the same ID.
- Dates and day counts are inverse to each other and agree with the calendar; the slewed clock never runs
  backwards and tracks elapsed time within its rate over any run; two nodes that hear each other never both lead, and
  what a node knows is what it last heard.
- Merging topology lists is a join, so the order in which they are learned is irrelevant; their payload format
  round-trips.

## Where the program does less than it seems to

Each of these is stated as a lemma, as a rule with the exact condition under which the program does meet the
promise.

- A release is acknowledged before it is passed on. If the ID of the frame that unblocks it is a recent one, or the
  ACK cannot be queued, or a dispatch fails, frames behind it that are new to the relay do not reach fan-out, and
  the sender may forget them (`ReliableHandOff.HandOffIsComplete`, `ReliableHandOff.SuppressedHeadLosesFrame`).
- A charged retry need not be a replay. Every due frame is charged before copies are queued, and the first refused
  copy ends the pass for all streams, so a frame can be abandoned without ever having been sent again
  (`ReliableReplay.CopiesExactly`, `ReliableReplay.AbandonedUncopied`).
- A first transmission that fails takes a number without leaving a record of it. If the frame did not reach the link, an
  ordered stream never gets past this number (`ReliableGap.FailedSubmitBlocksStream`).
- A partial ACK takes a frame out of reach of timeouts for good. If the receiver then gives the frame up for want of
  memory, only a request brings it back, and the receiver makes one only on a later frame
  (`ReliableHeldBack.HeldBackStays`, `ReliableHeldBack.HeldBackWithoutFrame`).
- A frame that is marked as queued and whose copy is refused, lost or reclaimed is out of reach of timeouts and
  requests until it is acknowledged (`ReliableReplay.OrphanExactly`, `ReliableReplay.OrphanStays`).
- At the end of the u32 numbering an ACK can forget a frame that the peer has not seen, and the receiver can
  come to expect number 0, which is never sent (`ReliableSystem.WrapForgetsUnseenFrame`,
  `ReliableSystem.WrapLeavesZeroExpected`).
- A prioritized push that is refused may already have discarded lower items (`BoundedDeques.RefusedPushKeepsQueue`,
  `BoundedDeques.RefusedPushEvicts`). The queue's documentation says that its buffer never grows; a full buffer
  below the element cap does (`BoundedDeques.GrownCapacity`).
- With a configured number of 0 recent IDs, for which the size of their queue makes a provision, noting an ID never comes to an
  end (`QueueBudget.TrimmingEndsExactly`).
- An item that fits the budget but not beside the recent-ID reservation is refused only after every store that
  holds bytes has been emptied (`QueueBudget.RoomExactly`).
- `as_unix_ns` accepts days that no month has, and 32-bit day arithmetic ends at day 2147483647 - 719468
  (`NetworkTime.CalendarRoundTrip`, `NetworkTime.UnixRoundTrip`). Advancing twice differs from advancing once if the
  first step ends before 1970 and the second does not (`NetworkTime.AdvanceIsAdditive`).
- Steering again before a correction is applied adds what was left of it, so the clock overshoots
  (`SlewedClock.SettlesOnTarget`, `SlewedClock.SecondSteerOvershoots`).
- A clock offset beyond 64 bits is narrowed silently (`TimeSample.OffsetFits`).
- The packet ID computed from the wire is the ID of the packet with its endpoints sorted and deduplicated. It is
  the sender's own ID whenever its list was already so (`WireRoundTrip.WireIdIsCanonicalId`); for another list
  the two are hashes of different inputs.
- Rewriting a header does not look at the checksum: it repairs a wrong one instead of reporting it
  (`HeaderRewrite.RewritesExactly`, `HeaderRewrite.DamageCoveredUp`).
- Across a wrap of the 64-bit cursor the weighted share is exact if and only if the total weight divides 2 to the 64 or
  one side carries it all (`RouteSelection.EveryWindowExactly`; `RouteSelection.WrapSkewsShare` is an input).
- Normalizing a list in which two boards of one sender differ keeps one of them and drops the other; which one,
  the unstable sort does not say (`Topology.NormalFormKeepsView`, `Topology.NormalFormWith`).

## Model

| member | source | states |
|---|---|---|
| `BoundedDeques.PrioritizedPushMeaning` | src/queue.rs:291-332 | On a sorted queue, a prioritized push succeeds exactly when the new item fits beside the strictly higher priorities alone; it then keeps the longest old prefix within the byte limit and the element cap, and inserts the item behind every priority at least its own; a refused push keeps a prefix that still contains every strictly higher priority. |
| `BoundedDeques.TrimTailMeaning` | src/queue.rs:302-308 | The eviction loop stops at the longest prefix that leaves room, or at a strictly higher priority that blocks it. |
| `BoundedDeques.OnlyLowerEvicted` | src/queue.rs:291-316 | Sorted or not, successful or refused, a push never evicts an item of strictly higher priority. |
| `BoundedDeques.InsertedStaysSorted` | src/queue.rs:320-330 | Insertion keeps descending order, with the new item after all older items of its own priority. |
| `BoundedDeques.InsertedHas` | src/queue.rs:320-330 | The new item is in the queue, and without it the queue is what it was. |
| `BoundedDeques.PushKeepsSorted` | src/queue.rs:287-332 | Every push, whatever its outcome, leaves a sorted queue sorted. |
| `BoundedDeques.RefusedPushKeepsQueue` | src/queue.rs:302-316 | A push refused for saturation leaves the queue untouched if and only if its last item already outranks the new one. |
| `BoundedDeques.RefusedPushEvicts` | src/queue.rs:302-308 | A concrete queue where a refused push nevertheless discards a lower item. |
| `BoundedDeques.FifoPushMeaning` | src/queue.rs:47-64 | A FIFO push succeeds exactly when the item fits alone, and keeps the longest run of newest items that fits beside it in bytes and elements. |
| `BoundedDeques.TrimHeadMeaning` | src/queue.rs:54-56 | The front-evicting loop drops as few items as possible. |
| `BoundedDeques.GrownCapacity` | src/queue.rs:242-258 | A full buffer below the element cap always grows, and never beyond the cap. |
| `BoundedDeques.GrownExactly` | src/queue.rs:242-258 | Short of integer overflow the target is the growth factor times the capacity, rounded up, but at least one more and at most the element cap. |
| `BoundedDeques.RetainedBytes` | src/queue.rs:202-215 | Retaining keeps exactly the items that satisfy the predicate and never adds bytes. |
| `BoundedDeques.BytesWithout` | src/queue.rs:185-189 | Removing any position lowers the byte sum by exactly that item's cost. |
| `BoundedDeques.BoundedDeque.constructor` | src/queue.rs:75-103 | A new queue is empty, with the element cap that its byte limit and item size imply. |
| `BoundedDeques.BoundedDeque.PopFront` | src/queue.rs:170-174 | Takes the first item and keeps the byte count exact. |
| `BoundedDeques.BoundedDeque.PopBack` | src/queue.rs:178-182 | Takes the last item and keeps the byte count exact. |
| `BoundedDeques.BoundedDeque.RemovePos` | src/queue.rs:185-189 | Removes exactly the given position, or nothing past the end, and keeps the byte count exact. |
| `BoundedDeques.BoundedDeque.RemoveValue` | src/queue.rs:192-199 | Removes the first occurrence of a value and nothing else. |
| `BoundedDeques.BoundedDeque.Retain` | src/queue.rs:202-215 | The in-place loop leaves exactly the retained items, in order, with an exact byte count. |
| `BoundedDeques.BoundedDeque.Clear` | src/queue.rs:136-139 | Leaves a valid empty queue. |
| `BoundedDeques.BoundedDeque.EnsureRoomForOne` | src/queue.rs:221-268 | Makes room for one element and gives up an item only when the queue is full at its element cap; below the cap it only grows. |
| `BoundedDeques.BoundedDeque.PushBack` | src/queue.rs:275-285 | Does to the queue exactly what the FIFO push function says, keeping count and limits. |
| `BoundedDeques.BoundedDeque.MakePriorityRoom` | src/queue.rs:302-316 | The tail-evicting loop ends with the planned prefix, blocked exactly when the plan is. |
| `BoundedDeques.BoundedDeque.InsertByPriority` | src/queue.rs:320-330 | The position search inserts in front of the first strictly lower priority. |
| `BoundedDeques.BoundedDeque.PushBackPrioritized` | src/queue.rs:291-332 | Does to the queue exactly what the prioritized push function says, for every queue and outcome; room for the slot is never made by eviction here. |
| `ReliableSender.AckedMeaning` | src/relay.rs:1087-1103 | A cumulative ACK forgets exactly the history numbers up to it, an unordered ACK exactly its own number; nothing else changes. |
| `ReliableSender.AckedPrefixMeaning` | src/relay.rs:1096-1102 | On an ascending order queue the front-popping loop pops exactly the numbers covered by the ACK. |
| `ReliableSender.HistorySize` | src/relay.rs:1289-1293 | The order queue and the history have the same size, so the pending test on one bounds both. |
| `ReliableSender.SubmitKeepsTxOk` | src/relay.rs:1286-1345 | Sending keeps the history well formed; a full history changes nothing, a failed TX still consumes a number, a successful one enters exactly that frame. |
| `ReliableSender.AckedKeepsTxOk` | src/relay.rs:1087-1103 | ACK handling keeps history, replay and retry invariants. |
| `ReliableSender.RequestedKeepsTxOk` | src/relay.rs:1185-1213 | A retransmit request keeps them: at most one replay copy of a number, and a live copy is marked as queued. |
| `ReliableSender.ReplayedKeepsTxOk` | src/relay.rs:602-636 | Taking a replay item keeps them whatever the link answers, busy, failed or sent. |
| `ReliableSender.ScanAt` | src/relay.rs:2108-2126 | One number's fate in the timeout scan depends only on its own record: dropped iff due with retries spent, charged and requeued iff due with retries left. |
| `ReliableSender.ScanRequeueOrder` | src/relay.rs:2108-2126 | The requeue list has no repetitions and only numbers of the snapshot. |
| `ReliableReplay.TimeoutUnqueued` | src/relay.rs:2130-2132 | Which records a timeout pass marks and which of them get a copy, wherever the pass over all streams ends: behind this stream, at one of its refused pushes, or before it came to this stream. |
| `ReliableSender.RequeueAllReplay` | src/relay.rs:2130-2132 | As far as the pass gets in this stream it appends one copy of each admitted frame, in order. |
| `ReliableSender.TimedOutAt` | src/relay.rs:2094-2135 | Over the whole timeout pass, wherever its requeueing ends, a record is dropped iff it is due with its retries spent; partially acknowledged, queued or recent records stay as they are; a due one is charged one retry and keeps its bytes. |
| `ReliableSender.TimedOutCopyAt` | src/relay.rs:2130-2132 | The i-th copy queued by a timeout pass is the unchanged frame of the i-th due record, now marked. |
| `ReliableSender.TimedOutReplay` | src/relay.rs:2094-2135 | A timeout pass only appends to the replay queue, and only due records with retries left, each once. |
| `ReliableSender.TimedOutHistory` | src/relay.rs:2094-2135 | The timeout pass keeps order queue and history in agreement. |
| `ReliableSender.TimedOutKeepsTxOk` | src/relay.rs:2094-2135 | The timeout pass keeps all sender invariants, the retry limit included. |
| `ReliableSender.StreamSender.SendReliable` | src/relay.rs:1286-1345 | The in-place send has the effect of the send function. |
| `ReliableSender.StreamSender.HandleAck` | src/relay.rs:1087-1103 | Both ACK loops have the effect of the ACK function. |
| `ReliableSender.StreamSender.HandlePartialAck` | src/relay.rs:1105-1111 | Marks exactly one record, if it is there. |
| `ReliableSender.StreamSender.QueueRetransmit` | src/relay.rs:1185-1213 | Has the effect of the request function. |
| `ReliableSender.StreamSender.ScanTimeouts` | src/relay.rs:2104-2127 | The scan loop over the snapshot yields the scanned state and the requeue list. |
| `ReliableSender.StreamSender.ProcessTimeouts` | src/relay.rs:2094-2135 | This stream's part of the scan and requeue loops has the effect of the timeout function, a pass that ends before it comes to this stream included. |
| `ReliableSender.StreamSender.ProcessReplayItem` | src/relay.rs:602-636 | Has the effect of the replay function for each answer of the link, which the record and replay-queue lemmas of ReliableRecords fix field by field. |
| `ReliableReceiver.Least` | src/relay.rs:563-565 | The frame a full reorder buffer gives up is its lowest number. |
| `ReliableReceiver.BufferedAddsOnlyTheFrame` | src/relay.rs:539-568 | Buffering an early frame never changes the expected number or any buffered frame, and adds at most this one. |
| `ReliableReceiver.DrainEnd` | src/relay.rs:2785-2794 | A release stops at the first missing number, and its ACK is the number before that. |
| `ReliableReceiver.DrainAt` | src/relay.rs:2785-2794 | It takes exactly the consecutive buffered frames, in order, and leaves the others untouched. |
| `ReliableReceiver.BufferedAt` | src/relay.rs:539-568 | Number by number: the early frame is stored if there is room, and what waited stays unless the budget reclaimed it or it was the lowest number of a full buffer. |
| `ReliableReceiver.StreamReceiver.BufferEarly` | src/relay.rs:539-568 | The in-place buffer update has the effect of the buffering function. |
| `ReliableReceiver.StreamReceiver.ReceiveOrdered` | src/relay.rs:2763-2820 | The ordered receive branch with its release loop has the effect of the receive function, whose replies and buffer the lemmas of ReliableReplies fix number by number. |
| `ReliableSystem.NextKeepsInv` | src/relay.rs:1286-1345 | Every step of sender, receiver and lossy network keeps the composed invariant (before the numbering wraps). |
| `ReliableSystem.RunKeepsInv` | src/relay.rs:2751-2823 | So every state of every run satisfies it. |
| `ReliableSystem.OrderedLinkSafety` | src/relay.rs:2751-2823 | For any loss, duplication, reordering and buffer reclaim, the released frames are exactly the first expected-1 numbered ones, in order, once each, byte for byte; everything buffered lies beyond the gap and is genuine. |
| `ReliableSystem.AckSoundness` | src/relay.rs:1087-1111 | No ACK on the link claims more than the peer has; a frame leaves the history only when the peer has it or after the timeout scan has charged it exactly the maximum number of retries. |
| `ReliableSystem.ReplayDiscipline` | src/relay.rs:1185-1213 | In every reachable state order queue and history agree within the pending limit, each number has at most one replay copy, timeouts never queue more copies of it than they charge retries, and never charge more than allowed. |
| `ReliableReplies.AnswerBeforeOrAhead` | src/relay.rs:2773-2815 | An old frame is answered with the ACK of the number in front of the expected one; an early frame that waits afterwards with a partial ACK of its own number and a request for the expected one; an early frame that was refused with nothing. |
| `ReliableReplies.AnswerInPlace` | src/relay.rs:2784-2820 | The expected frame is answered with the ACK of the number in front of the one expected afterwards, and moves the stream on. |
| `ReliableReplies.AnswerOtherwise` | src/relay.rs:2760-2762 | Without an answer the link stays as it is; an unordered frame is answered with the ACK of its own number. |
| `ReliableReplies.WaitingAfterEarly` | src/relay.rs:2775-2783 | What waits after an early frame, number by number: the frame if there is room, and of the others all but the reclaimed ones and the lowest of a full buffer. |
| `ReliableReplies.WaitingAfterRelease` | src/relay.rs:2785-2794 | A release takes exactly what waited below the first missing number, in order behind the expected frame, and leaves exactly the rest. |
| `ReliableReplies.PartialAcksAreHonest` | src/relay.rs:2776-2809 | Over every run before the wrap, each partial ACK on the link and each record held back by one names a frame that the receiver has held, byte for byte. |
| `ReliableRecords.TimeStep` | src/relay.rs:631-634 | A step changes the time in a record only by handing its frame to the link, and then to the time of that. |
| `ReliableRecords.RecordHasLastTime` | src/relay.rs:1335-1344 | Over every run before the wrap, the time in a record is when its frame was last handed to the link, by the first transmission or by the latest replay that the link took. |
| `ReliableRecords.TimeoutActsExactly` | src/relay.rs:2108-2126 | In every reachable state before the wrap, a timeout charges or abandons a frame exactly if it was last handed to the link at least the configured time ago, on a clock that wraps at 2 to the 64, and is neither marked for replay nor reported by the peer. |
| `ReliableRecords.FlagStep` | src/relay.rs:1196-1210 | How each step changes the two flags of a record. |
| `ReliableRecords.RecordTellsItsStory` | src/relay.rs:1105-1111 | Over every run before the wrap, a record is marked as queued exactly if it was marked since it was last handed to the link, and as partially acknowledged exactly if it was reported and not marked since. |
| `ReliableRecords.ReplayQueueStep` | src/relay.rs:602-636 | The replay queue is first in, first out: requests and timeouts append unaltered frames, a replay takes the front and puts it back only on a busy link with room. |
| `ReliableRecords.DueAscending` | src/relay.rs:2104-2126 | A timeout pass requeues in the order in which frames were sent. |
| `ReliableProgress.StreamMovesOnExactly` | src/relay.rs:602-636 | In every reachable state before the wrap in which the receiver waits for a number that was handed out, some continuation gets it past that number if and only if the frame has been on the link, or is in history and not marked without a copy. |
| `ReliableProgress.StuckForGood` | src/relay.rs:1185-1213 | Otherwise no run of any steps does. |
| `ReliableHeldBack.HeldBackStays` | src/relay.rs:2113-2117 | Over any run without a request for it, a record reported by a partial ACK and not marked stays exactly as it is until the frame is acknowledged, and no copy of it is queued: it is neither charged nor abandoned. |
| `ReliableHeldBack.HeldBackWithoutFrame` | src/relay.rs:2113-2117 | A run after which the receiver waits for a frame that it reported and then gave up for want of memory; in every continuation without a request for it, the sender's record of it stays as it is until it is acknowledged, and no copy of it is queued. |
| `ReliableReplay.CopiesExactly` | src/relay.rs:2113-2132 | The copies that timeouts queue of a number are its charged retries without the passes that ended before its push; so every charge is a copy, and an abandoned frame had all its replays queued, exactly when each pass that charged it admitted pushes past its place. |
| `ReliableReplay.AbandonedUncopied` | src/relay.rs:2124-2132 | For every retry limit, a run in which a frame is charged all its retries and then abandoned although no copy was ever queued, because each pass is ended by a refused push of another stream. |
| `ReliableReplay.AbandonedInOneStream` | src/relay.rs:2124-2132 | With one retry allowed it takes no other stream: of two frames the second is charged by a pass that the first one's refused copy ends, and abandoned by the next. |
| `ReliableGap.FailedSubmitBlocksStream` | src/relay.rs:1294-1328 | A number whose first transmission failed before the link is never passed: in every continuation of every run the receiver expects at most this number and releases only frames in front of it. |
| `ReliableGap.MissingStays` | src/relay.rs:1294-1328 | No step brings a frame of such a number into history, replay queue, link or reorder buffer. |
| `ReliableReplay.OrphanExactly` | src/relay.rs:1196-1213 | A record is marked as queued without a waiting copy from exactly when its copy is refused, lost to the link or reclaimed, until exactly when it is acknowledged. |
| `ReliableReplay.OrphanStays` | src/relay.rs:2113-2115 | Over any run such a record is neither sent, nor charged, nor abandoned again, and requests for it change nothing, until it is acknowledged. |
| `ReliableSystem.ReleasedOnlyGrows` | src/relay.rs:2833-2845 | A longer run only appends to what was released. |
| `ReliableSystem.WrapForgetsUnseenFrame` | src/relay.rs:1096-1102 | Why runs stop at the u32 wrap: an ACK of the last number also forgets frame 1 of the next round. |
| `ReliableSystem.WrapLeavesZeroExpected` | src/relay.rs:2787-2794 | And a receiver that takes the last number straight off the link goes on to expect 0, which no sender uses. |
| `RecentIds.NotedIsPushed` | src/relay.rs:531-537 | Within the budget, noting an ID in the relay's stores appends it to the newest old ones that configuration and reservation have room for, and touches no other store. |
| `ReliableHandOff.PassOnRelease` | src/relay.rs:2817-2847 | The hand-off of a release to fan-out, with its early returns, its skips and its notes of IDs, passes on the computed frames and leaves the computed recent IDs. |
| `ReliableHandOff.PassEachAt` | src/relay.rs:2833-2847 | A frame is passed on if its turn finds its ID unknown or forwards duplicates, and no dispatch failed by then; after a failure only earlier frames are. |
| `ReliableHandOff.NumberTells` | src/relay.rs:2155-2162 | One packet under two hop numbers that differ in their lowest byte only has two IDs. |
| `ReliableHandOff.HandOffIsComplete` | src/relay.rs:2817-2847 | Exactly when a release loses nothing new on the way to fan-out: every frame whose ID is neither among the recent ones before the call nor that of an earlier frame is passed on iff there is none, or the ACK was queued, the first frame's ID is not a recent one (or its duplicates are forwarded), and no dispatch fails up to the last new frame. |
| `ReliableHandOff.OneLinkPassesAll` | src/relay.rs:2817-2847 | In any run of a relay with one link, everything released is passed on, in order, as long as ACKs find room, dispatches succeed, and no two released frames within the reach of the recent IDs have one ID. |
| `ReliableHandOff.OneLinkPassesExactly` | src/relay.rs:2140-2187 | If no duplicate is ever forwarded, everything released is passed on if and only if no two released frames within that reach have one ID. |
| `ReliableHandOff.SuppressedHeadLosesFrame` | src/relay.rs:2826-2829 | A run over two links in which the relay notes frame 1 of one link, and then releases, acknowledges and has the sender forget frames 1 and 2 of the other without passing on frame 2, which is new to it. |
| `DiscoveryRoutes.SubsetWeighsLess` | src/relay.rs:324-341 | A sorted duplicate-free list weighs no more than one that contains it, which is why pruning cannot raise a route's cost. |
| `DiscoveryRoutes.AliveRouteCostsLess` | src/relay.rs:1681-1697 | Recomputing a side from its unexpired announcers never makes its route dearer. |
| `DiscoveryRoutes.PruneCostsLess` | src/relay.rs:1772-1782 | Pruning never raises the bytes charged to routes. |
| `DiscoveryRoutes.PruneConsistent` | src/relay.rs:1772-1782 | After pruning every side's aggregate is again what its announcers say. |
| `DiscoveryRoutes.PrunedMeaning` | src/relay.rs:1772-1782 | A side survives pruning exactly with its unexpired announcers, and only if there are any. |
| `DiscoveryRoutes.AliveMeaning` | src/relay.rs:1774-1777 | Exactly the announcers heard within the time to live stay. |
| `DiscoveryRoutes.RecomputedMeaning` | src/relay.rs:1681-1697 | A side's aggregate lists exactly the endpoints and sources that some announcer names, sorted and each once, and was heard from when the latest announcer was. |
| `DiscoveryRoutes.LearnedMeaning` | src/relay.rs:2010-2069 | Learning replaces one announcer of one side and recomputes that side; every other side is untouched. |
| `DiscoveryRoutes.WithAnnouncerMeaning` | src/relay.rs:2065-2067 | All other announcers of the side keep what they said. |
| `DiscoveryRoutes.Oldest` | src/relay.rs:412-423 | The route given up is the one heard from least recently, the lowest side on a tie. |
| `DiscoveryRoutes.FittedFits` | src/relay.rs:504-511 | Giving up oldest routes ends within the budget whenever the other stores alone are within it. |
| `DiscoveryRoutes.FittedExactly` | src/relay.rs:504-511 | Exactly as many of the stalest routes are given up as have to be. |
| `DiscoveryRoutes.RouteCostAddsUp` | src/relay.rs:324-341 | What a route costs, entry by entry: its own size, one endpoint size for each endpoint, the bytes of each name, and every announcer with its boards. |
| `QueueBudget.VictimIsLargest` | src/relay.rs:425-469 | The victim store holds the most bytes; of the largest the last candidate wins, except that reorder buffers give way to every other; there is none only when nothing is held. |
| `QueueBudget.OneVictim` | src/relay.rs:463-468 | These rules leave no choice. |
| `QueueBudget.PoppedShrinks` | src/relay.rs:399-423 | Taking an item takes exactly one, frees bytes of that store only and costs no other store anything. |
| `QueueBudget.PoppedIsFront` | src/relay.rs:399-423 | Taking from a store takes the front of its queue or listing, or the stalest route, and leaves the other five stores alone; it fails exactly when the store is empty. |
| `QueueBudget.EvictedFromLargest` | src/relay.rs:482-492 | Each pass takes from the largest store as long as some store holds bytes, and from the preferred one when none does. |
| `QueueBudget.ChargesAddUp` | src/relay.rs:361-378 | The bytes in use, item by item: the reservation, each item's cost, each waiting frame's handle and length, each route's cost, and nothing for a recent ID. |
| `QueueBudget.EvictedShrinks` | src/relay.rs:482-492 | Every pass of the eviction loop removes exactly one item, so the loop terminates. |
| `QueueBudget.StuckWhenDrained` | src/relay.rs:487-491 | The loop gets stuck only when no store holds a byte and the preferred one is empty. |
| `QueueBudget.EvictingExact` | src/relay.rs:482-494 | The loop ends well exactly when the item fits beside the recent-ID reservation; if not, it has emptied every byte-holding store. |
| `QueueBudget.RoomExactly` | src/relay.rs:471-495 | Room is made if and only if incoming cost plus reservation fits the budget; an item above the whole budget changes nothing. |
| `QueueBudget.EvictsOnlyWhileOver` | src/relay.rs:482-492 | Nothing is evicted without need: before each pass the item did not fit yet. |
| `QueueBudget.RoomKeepsRecent` | src/relay.rs:425-495 | Making room never takes recent packet IDs. |
| `QueueBudget.PushesKeepBudget` | src/relay.rs:513-529 | Each of the three queue pushes keeps the global budget. |
| `QueueBudget.PushOutcomeExactly` | src/relay.rs:513-529 | Each of the three pushes is refused for size exactly when the item does not fit beside the reservation, and for saturation exactly when its queue is at its cap with a last item that outranks the new one; otherwise the item is inserted and at most the last one given up. The five other stores are as making room left them. |
| `QueueBudget.PushedRecentMeaning` | src/relay.rs:531-537 | Noting a recent ID always succeeds, puts it behind the newest old ones and respects the configured number. |
| `QueueBudget.TrimmingEndsExactly` | src/relay.rs:532-534 | The loop that trims recent IDs ends if and only if the configured number is positive, and then with as few dropped as possible. |
| `QueueBudget.RecentKeepsBudget` | src/relay.rs:531-537 | Noting a recent ID keeps the budget. |
| `QueueBudget.BufferedMeaning` | src/relay.rs:539-568 | An early frame is buffered exactly when it already waits or fits beside the reservation; no stream exceeds its limit and frames stay ordered and unique. |
| `QueueBudget.BufferedExactly` | src/relay.rs:539-568 | Buffering adds exactly the frame and gives up exactly the lowest number of its stream if that is full; a frame that waits already changes nothing. |
| `QueueBudget.OrderedExactly` | src/relay.rs:387-397 | The listing of waiting frames is sorted by side, then type, then number. |
| `QueueBudget.WithoutFirstMeaning` | src/relay.rs:563-565 | A full stream pays with exactly its lowest number. |
| `QueueBudget.EvictingKeepsSuffix` | src/relay.rs:387-397 | Making room takes waiting frames from the front of the listing only. |
| `QueueBudget.BufferKeepsBudget` | src/relay.rs:539-568 | Buffering keeps the budget. |
| `QueueBudget.LearnKeepsBudget` | src/relay.rs:1997-2077 | Learning a discovery statement of any size keeps the budget. |
| `QueueBudget.LearnedExactly` | src/relay.rs:2010-2077 | After learning nobody expired is left, and if the routes fit, every side has exactly its announcers that are alive, with the new statement in place of the old one. |
| `QueueBudget.PruneKeepsBudget` | src/relay.rs:1772-1782 | Pruning keeps it. |
| `QueueBudget.RemoveSideKeepsBudget` | src/relay.rs:2284-2317 | Removing a side keeps it and grows no store. |
| `QueueBudget.RemovedSideMeaning` | src/relay.rs:2305-2313 | Removing a side leaves nothing of it in any store and loses nothing of other sides. |
| `QueueBudget.ReleaseKeepsBudget` | src/relay.rs:2787-2794 | Releasing frames from the middle of the reorder listing keeps the budget. |
| `QueueBudget.DisableEgressKeepsBudget` | src/relay.rs:2348-2351 | So does switching off a side's egress. |
| `QueueBudget.ClearingKeepsBudget` | src/relay.rs:2653-2670 | So does clearing queues. |
| `QueueBudget.ClearedExactly` | src/relay.rs:2653-2670 | Clearing empties its queues and nothing else. |
| `QueueBudget.ReleasedMeaning` | src/relay.rs:2787-2794 | A release takes exactly its numbers of its stream, and switching off egress exactly what is queued for the side; nothing else changes. |
| `QueueBudget.ApplyKeepsBudget` | src/relay.rs:361-378 | Every operation on the stores keeps the budget. |
| `QueueBudget.BudgetIsNeverExceeded` | src/relay.rs:361-378 | After any sequence of pushes, buffering, releases, learning, pruning, clearing, egress switches, removal and consumption from an empty relay the shared bytes in use never exceed the budget. |
| `RelayQueues.RelayStores.constructor` | src/relay.rs:687-724 | A new relay's stores are empty, separate and within the budget. |
| `RelayQueues.RelayStores.BytesUsed` | src/relay.rs:361-378 | The kept byte counters add up to the bytes that the stores hold, recent IDs at their full reservation. |
| `RelayQueues.RelayStores.LargestStore` | src/relay.rs:425-469 | Comparing the kept byte counters of the six candidates finds a store that holds the most bytes by the tie rules, and none exactly when no store holds any. |
| `RelayQueues.RelayStores.PopItem` | src/relay.rs:399-423 | Takes the item the pop function names, in place. |
| `RelayQueues.RelayStores.EvictOne` | src/relay.rs:482-492 | One loop pass in place. |
| `RelayQueues.RelayStores.MakeSharedQueueRoom` | src/relay.rs:471-495 | The eviction loop in place has exactly the specified effect on all six stores and the specified verdict. |
| `RelayQueues.RelayStores.PushRx` | src/relay.rs:513-517 | Receive push in place, keeping the budget. |
| `RelayQueues.RelayStores.PushTx` | src/relay.rs:519-523 | Transmit push in place, keeping the budget; its outcome is that of PushOutcomeExactly. |
| `RelayQueues.RelayStores.PushReplay` | src/relay.rs:525-529 | Replay push in place, keeping the budget. |
| `RelayQueues.RelayStores.PushRecent` | src/relay.rs:531-537 | Recent-ID push in place with its trimming loop, keeping the budget. |
| `RelayQueues.RelayStores.BufferReliableRx` | src/relay.rs:539-568 | Buffering in place, keeping the budget. |
| `RelayQueues.RelayStores.FitDiscoveryBudget` | src/relay.rs:504-511 | The route-dropping loop in place. |
| `RelayQueues.RelayStores.PruneDiscoveryRoutes` | src/relay.rs:1772-1782 | Pruning in place; reports a change exactly when there is one. |
| `RelayQueues.RelayStores.LearnDiscovery` | src/relay.rs:2064-2077 | Insert, fit and prune in place, keeping the budget. |
| `RelayQueues.RelayStores.RemoveSide` | src/relay.rs:2305-2315 | Removal from all stores in place, keeping the budget. |
| `RelayQueues.RelayStores.ReleaseFrames` | src/relay.rs:2787-2794 | The release loop in place takes exactly the consecutive numbers that wait from the first on, up to one that does not, and keeps the budget. |
| `RelayQueues.RelayStores.DisableEgress` | src/relay.rs:2348-2351 | Both retains in place, keeping the budget. |
| `RouteSelection.ExactShare` | src/relay.rs:841-864 | In any run of total-weight consecutive weighted selections every side is chosen exactly its weight times: without a counter wrap, and across it if the total divides 2 to the 64 or one side carries all. |
| `RouteSelection.EveryWindowExactly` | src/relay.rs:852-854 | Every such run, from every value of the counter and across its wrap, is exact if and only if the total divides 2 to the 64 or one side carries all the weight. |
| `RouteSelection.PicksAreTimes` | src/relay.rs:841-924 | Successive selections from one source that hand the stored cursor on, weighted or adaptive, pick a side exactly as often as the cursor's values point to it. |
| `RouteSelection.SelectionsShareExactly` | src/relay.rs:841-924 | So as many of them as the weights add up to pick every side exactly its weight times, from any stored cursor from which the window is exact. |
| `RouteSelection.FullTurn` | src/relay.rs:852-863 | Over one turn of the remainder each side owns a share of exactly its weight. |
| `RouteSelection.AlwaysOne` | src/relay.rs:841-864 | With any weight at all each selection yields one of the sides; the empty fall-through is unreachable. |
| `RouteSelection.WalkHits` | src/relay.rs:855-863 | The walk ends at a side exactly when the remainder is below the total. |
| `RouteSelection.ChosenPeriodic` | src/relay.rs:852-854 | A full turn later the choice repeats. |
| `RouteSelection.SelectionMeaning` | src/relay.rs:825-925 | In every mode, adaptive included, selection invents no side; fan-out keeps all, failover and adaptive keep one, weighted keeps one unless all weights are zero. |
| `RouteSelection.FirstIsLeast` | src/relay.rs:865-874 | Failover picks the lowest priority number, and the lowest side on a tie. |
| `RouteShares.CursorExactly` | src/relay.rs:834-907 | The stored cursor advances by one, around at 2 to the 64, exactly when one of several sides is picked by turn. |
| `RouteShares.FailoverExactly` | src/relay.rs:865-874 | Failover takes the side of the least priority number, zero by default, and the lowest of those. |
| `RouteShares.WeightedShareExactly` | src/relay.rs:841-864 | Successive weighted selections share by the configured weights, one by default. |
| `RouteShares.MeasuredShareExactly` | src/relay.rs:896-924 | Once every side is measured, adaptive selections share by bandwidth, at least one each. |
| `RouteShares.UnmeasuredTakeTurns` | src/relay.rs:884-895 | As long as some sides are unmeasured, adaptive selections take each of those in turn, once each, and no measured one. |
| `PlanRuns.PlansAreSelections` | src/relay.rs:1375-1519 | Successive plans for items of one kind are successive selections among the same sides: planning moves nothing but a cursor. |
| `PlanRuns.PlansShareByWeight` | src/relay.rs:841-864 | So of as many successive plans as the candidates' weights add up to, each candidate is the target of exactly its weight. |
| `PlanRuns.PlansAdapt` | src/relay.rs:877-925 | Without a mode, successive plans take turns among unmeasured candidates, and share by bandwidth once all are measured. |
| `PlanRuns.PlanFailsOver` | src/relay.rs:865-874 | With failover, every plan goes to the candidate of the least priority number. |
| `RouteSelection.PickWeighted` | src/relay.rs:841-864 | The summing and walking loops compute the weighted choice and advance the cursor. |
| `RoutePlan.PlanIsSafe` | src/relay.rs:1375-1519 | Every planned target exists with egress enabled, its source exists with ingress enabled, the two differ, the override of the pair is absent or on, and a type with rules from this source has one to this target that is on; items with only link-local endpoints go to link-local sides (discovery and end-to-end acknowledgements aside). |
| `RoutePlan.AllowedExactly` | src/relay.rs:758-799 | A received item is allowed to go exactly where both sides are enabled and different and no override or typed rule is against it. |
| `RoutePlan.AllowedFromInside` | src/relay.rs:758-799 | What the relay creates itself needs an enabled target and no rule against it. |
| `RoutePlan.CandidatesExactly` | src/relay.rs:1414-1519 | The sides among which targets are selected, on the tables alone: those that live routes to the time source lead to, or else to an endpoint, or else all that the tables let the item go to. |
| `RoutePlan.UsableExactly` | src/relay.rs:1444-1465 | A route is used exactly if it was heard from within the time to live and the tables let the item go its way. |
| `RoutePlan.PlanFollowsDiscovery` | src/relay.rs:1438-1502 | When a live allowed route names the item's time source, or else reaches one of its endpoints, only such sides are targets. |
| `RoutePlan.FanoutPlanExactly` | src/relay.rs:1414-1519 | Under fan-out the plan is exactly the sides of usable routes that name the time source, or else of those that reach an endpoint, each unless a reliable packet is acknowledged there already, or else every allowed side. |
| `RoutePlan.AckFollowsReturnRoute` | src/relay.rs:1400-1413 | An end-to-end acknowledgement goes exactly to its noted return side, if that is still allowed. |
| `RoutePlan.SkippedExactly` | src/relay.rs:1561-1603 | A discovered side is skipped for a reliable packet exactly when it has a destination board and every destination with one of the packet's endpoints has acknowledged. |
| `RoutePlan.EligibleMeaning` | src/relay.rs:801-823 | The eligible sides are exactly the allowed ones, ascending. |
| `RoutePlan.ExactMeaning` | src/relay.rs:1444-1469 | Exact targets are exactly the sides of usable routes that name the wanted time source. |
| `RoutePlan.KnownMeaning` | src/relay.rs:1444-1474 | Known targets are exactly the sides of the other usable routes that reach one of the endpoints. |
| `RecencyCaches.RememberedMeaning` | src/relay.rs:1010-1022 | Noting a packet makes it most recent; another live entry is evicted exactly when as many others are live as the cap allows, and then it is the front one. |
| `RecencyCaches.EvictedIsLeastRecent` | src/relay.rs:1010-1022 | A note evicts a live entry only when as many other entries are live as the cap allows, and then exactly the one whose last note is furthest back; all others stay. |
| `RecencyCaches.NoteRouteExactly` | src/relay.rs:1003-1022 | Noting a return route stores its side and forgets nothing, or exactly the least recently noted packet if the cache is full of others. |
| `RecencyCaches.NoteAckExactly` | src/relay.rs:1024-1049 | Noting an acknowledgement adds the sender to what is stored, unless the set is full, and forgets in the same way. |
| `RecencyCaches.StoredRouteIsLast` | src/relay.rs:1003-1022 | After any run, a stored return route is the side of the packet's last note, and that side was not removed since. |
| `RecencyCaches.StoredAcksAreReal` | src/relay.rs:1024-1049 | After any run, a sender that counts as having acknowledged has done so, and was active at every reconciliation since. |
| `RecencyCaches.RoutesKeepRecency` | src/relay.rs:1003-1022 | After any run of notes and side removals the return-route keys are in the duplicate-free queue, its length is within the cap, and it is sorted by last note. |
| `RecencyCaches.AcksKeepRecency` | src/relay.rs:1024-1049 | The same for acknowledgement entries after any run of notes and reconciliations; no sender set is empty or above its own cap. |
| `RecencyCaches.SizeBounded` | src/relay.rs:1010-1022 | The map never holds more entries than the cap. |
| `RecencyCaches.NoteRouteKeepsValid` | src/relay.rs:1003-1008 | Noting a return route keeps the cache valid. |
| `RecencyCaches.NoteAckKeepsValid` | src/relay.rs:1024-1049 | Noting an acknowledgement keeps the cache valid and every sender set nonempty and within its own cap. |
| `RecencyCaches.RemovalsKeepValid` | src/relay.rs:2303-2304 | Removing a side's routes keeps the cache valid although the queue is not touched. |
| `RecencyCaches.ReconcileKeepsValid` | src/relay.rs:1785-1800 | Reconciling with the active senders keeps all of it. |
| `RecencyCaches.RecencyCache.Remember` | src/relay.rs:1010-1022 | The filtering and trimming loops in place. |
| `RecencyCaches.NoteReliableReturnRoute` | src/relay.rs:1003-1008 | Noting a return route in place. |
| `RecencyCaches.ForgetSide` | src/relay.rs:2303-2304 | The loop over all entries drops exactly those that lead to the side, and leaves the queue alone. |
| `RecencyCaches.NoteEndToEndAcked` | src/relay.rs:1024-1049 | Noting an acknowledgement in place. |
| `RecencyCaches.ReconcileEndToEndAcked` | src/relay.rs:1796-1799 | The nested loops leave a sender in an entry exactly if it was there and is active, and no empty entry. |
| `Uleb128.RoundTrip` | src/serialize.rs:92-125 | Reading what was written for any u64 gives it back and consumes exactly its size, ten bytes at most. |
| `Uleb128.EncodedByte` | src/serialize.rs:93-108 | Byte i of an encoding carries the digit of weight 128 to the i, and its high bit says whether another follows. |
| `Uleb128.DecodeExactly` | src/serialize.rs:112-125 | All that reading can end in: up to ten bytes that are one number are what they spell, cut to 64 bits; ten that each promise another are too long; all else is too short. |
| `Uleb128.SizeMeaning` | src/serialize.rs:129-136 | n bytes suffice exactly for values of up to 7n bits. |
| `Uleb128.EncodeLength` | src/serialize.rs:93-136 | The size function is the encoded length. |
| `Uleb128.EncodingIsShortest` | src/serialize.rs:112-125 | Nothing that decodes to a value is shorter than its encoding. |
| `Uleb128.PaddedZero` | src/serialize.rs:112-125 | Padded, non-canonical forms are accepted. |
| `Uleb128.WriteUleb128` | src/serialize.rs:93-108 | The writing loop appends the encoding. |
| `Uleb128.ReadUleb128` | src/serialize.rs:112-125 | The shifting loop reads the value, fails short or fails too long, as specified. |
| `Uleb128.Uleb128Size` | src/serialize.rs:129-136 | The counting loop computes the size. |
| `EndpointBitmap.BuildMeaning` | src/serialize.rs:282-294 | A bit is set exactly for the listed endpoints in range. |
| `EndpointBitmap.ExpandFromMeaning` | src/serialize.rs:301-328 | Expansion lists exactly the set bits in ascending order and fails exactly when one is no endpoint. |
| `EndpointBitmap.ExpandAfterBuild` | src/serialize.rs:282-328 | Expanding a built bitmap sorts the list and drops repetitions. |
| `EndpointBitmap.PopcountAfterBuild` | src/serialize.rs:140-142 | The population count of a built bitmap is the number of distinct endpoints. |
| `EndpointBitmap.BuildEndpointBitmap` | src/serialize.rs:282-294 | The bit-setting loop on the byte array. |
| `EndpointBitmap.ExpandEndpointBitmap` | src/serialize.rs:301-328 | The scanning loop. |
| `WireRoundTrip.PacketRoundTrip` | src/serialize.rs:412-574 | Decoding a frame gives the packet with its endpoints sorted and deduplicated, and the header that was written, for every packet, compressed or not. |
| `WireRoundTrip.PlainRoundTrip` | src/serialize.rs:342-355 | The same for the plain encoder with its default header. |
| `WireRoundTrip.EncodesExactly` | src/serialize.rs:445-451 | A frame exists exactly for at most 255 distinct endpoints. |
| `WireRoundTrip.SizeIsExact` | src/serialize.rs:822-865 | The precomputed wire size is the length of the frame. |
| `WireRoundTrip.WireIdIsCanonicalId` | src/packet.rs:255-278 | The ID computed from the wire is the ID of the packet with sorted, deduplicated endpoints, hence the sender's own ID whenever its list was already so. |
| `WireRoundTrip.HeadRoundTrip` | src/serialize.rs:437-467 | The head that was written is the head every parser reads. |
| `WireRoundTrip.SealedVerifies` | src/serialize.rs:195-223 | Appending the checksum makes verification succeed with the data. |
| `WireRoundTrip.HeaderRoundTrip` | src/serialize.rs:226-238 | A reliable header is read back as written. |
| `WireAgreement.ParsersAgree` | src/serialize.rs:488-977 | Wherever a packet decodes, envelope, frame info and wire ID can be read too, and they are the packet's own; the header present is not ACK-only. |
| `WireAgreement.DecodesExactly` | src/serialize.rs:869-977 | A frame the ID parser accepts decodes if and only if the endpoint count matches, the sender is text, an endpoint is selected and the payload suits its type. |
| `WireAgreement.FrameInfoHasEnvelope` | src/serialize.rs:596-732 | Whatever the frame peek accepts, the envelope peek, which has its own copy of the checks, accepts with the same envelope. |
| `WireAgreement.FrameInfoExactly` | src/serialize.rs:708-715 | The frame peek accepts exactly what the envelope peek accepts, provided a reliable type leaves room for a header. |
| `WireAgreement.HashBitsExpands` | src/serialize.rs:954-966 | Hashing endpoint names off the bitmap is hashing the expanded list. |
| `WireAcceptance.DecodedIsGood` | src/serialize.rs:488-574 | Whatever bytes decode, the packet has a known type, one to 255 known endpoints in ascending order, a text sender, a suitable payload and 64-bit numbers. |
| `WireAcceptance.ReencodingKeepsPacket` | src/serialize.rs:342-574 | Every decoded packet can be encoded again and then decodes to itself, with the same wire ID. |
| `WireAcceptance.VerifiedExactly` | src/serialize.rs:195-223 | The checksum is the last four bytes; fewer are too short and any other value is a mismatch. |
| `WireAcceptance.TypeExactly` | src/serialize.rs:548-552 | A type code has to be known, and one beyond 32 bits is told apart. |
| `WireAcceptance.FieldErrors` | src/serialize.rs:535-570 | A refused bitmap, sender or payload says which of the things that can be wrong is. |
| `WireLayout.FrameLayout` | src/serialize.rs:412-474 | Every frame, part by part: two compression flags, the number of distinct endpoints, four or five variable-length integers, bitmap, sender, reliable header, payload, and the checksum of all that. |
| `WireLayout.BitmapLayout` | src/serialize.rs:282-294 | The bitmap holds eight endpoints a byte, the lowest in the lowest bit. |
| `PacketHash.HashOfConcat` | src/packet.rs:99-109 | Hashing one string after another is hashing both joined. |
| `PacketHash.HashOfOne` | src/packet.rs:99-109 | Hashing nothing changes nothing, and one byte is one step. |
| `PacketHash.HashHasRun` | src/packet.rs:99-109 | The hash is the last of a list of states, each of which follows from the one before by exclusive or, wrapping product and shifted copy. |
| `PacketHash.MixInjective` | src/packet.rs:103-106 | A step loses neither the state nor the byte: each can be told from the result and the other. |
| `PacketHash.OneByteTells` | src/packet.rs:99-109 | Byte strings that differ in exactly one byte never have the same hash. |
| `PacketHash.XorBit` | src/packet.rs:103-106 | The recursive exclusive or goes bit by bit. |
| `PacketHash.ShrDivides` | src/packet.rs:106-106 | The recursive shift divides by a power of two, rounding down. |
| `PacketIds.IdIsHash` | src/packet.rs:255-278 | A packet's ID is one hash from the seed over all its parts joined. |
| `PacketIds.IdByStates` | src/packet.rs:255-278 | A list of states from the seed to the ID, one step for each byte of sender, type name, endpoint names, time, size and payload. |
| `PacketIds.PayloadByteTells` | src/packet.rs:255-278 | Packets that differ in exactly one payload byte have different IDs. |
| `PacketIds.SenderByteTells` | src/packet.rs:255-278 | So do packets that differ in exactly one byte of the sender's name. |
| `PacketIds.SplitIsNotHashed` | src/packet.rs:255-278 | Packets whose joined sender and type name agree, and all else, have one ID: where one part ends is not hashed. |
| `HeaderRewrite.RewriteKeepsPacket` | src/serialize.rs:786-808 | Rewriting the header of a decodable frame keeps length, packet and ID, leaves a valid checksum, and the header read afterwards is the one written. |
| `HeaderRewrite.HopsKeepPacket` | src/relay.rs:1309-1321 | The same over any chain of hops: the last header written is the one read. |
| `HeaderRewrite.LastRewriteWins` | src/serialize.rs:786-808 | Two rewrites equal the second alone, byte for byte. |
| `HeaderRewrite.RewriteWithOwnHeader` | src/serialize.rs:786-808 | Rewriting a valid frame with its own header changes nothing. |
| `HeaderRewrite.RewriteReseals` | src/serialize.rs:802-807 | A rewrite leaves a valid checksum even if the old one was wrong. |
| `HeaderRewrite.RewritesExactly` | src/serialize.rs:742-808 | A frame is rewritten exactly if its data has a whole head of a reliable type and room for a header; the checksum has no say in it, nor in the outcome. |
| `HeaderRewrite.DamageCoveredUp` | src/serialize.rs:786-808 | So every such frame with any wrong checksum, refused before, verifies after a rewrite and decodes to whatever its bytes say. |
| `HeaderRewrite.AckOnlyMakesControlFrame` | src/serialize.rs:553-557 | Rewriting with an ACK-only header makes the frame undecodable as a packet. |
| `HeaderRewrite.NothingToRewrite` | src/serialize.rs:792-794 | A frame of an unreliable type is left alone. |
| `HeaderRewrite.HeadLocal` | src/serialize.rs:742-782 | The head depends only on its own bytes. |
| `HeaderRewrite.RewriteReliableHeader` | src/serialize.rs:786-808 | The in-place rewrite of the byte array has exactly the specified effect, errors included. |
| `WireCodec.ByteReader.ReadBytes` | src/serialize.rs:166-173 | Reads exactly the requested bytes and advances, or reads nothing. |
| `WireCodec.ByteReader.ReadUleb128` | src/serialize.rs:112-125 | Reads the number at the cursor and moves past it, or fails as specified. |
| `WireCodec.ByteReader.ReadHeader` | src/serialize.rs:233-238 | Reads the nine header bytes in field order. |
| `WireCodec.ReadHead` | src/serialize.rs:495-516 | The sequential head reads compute the specified head, with the cursor at the bitmap. |
| `WireCodec.ReadEndpoints` | src/serialize.rs:535-540 | Reads the bitmap and checks it against the declared count, with the cursor at the sender. |
| `WireCodec.ReadSender` | src/serialize.rs:543-544 | Reads the sender as stored or decompressed and checks that it is text, with the cursor behind it. |
| `WireCodec.ReadPayload` | src/serialize.rs:561-570 | Reads a plain payload by its length, or decompresses everything that remains. |
| `WireCodec.DeserializeData` | src/serialize.rs:489-574 | The whole sequence of reads and checks behind the checksum, each error at its place. |
| `WireCodec.DeserializePacket` | src/serialize.rs:488-574 | The parser as it runs computes the specified result, each error included. |
| `WireCodec.ReadEnvelope` | src/serialize.rs:596-647 | The envelope peek as it runs, with its reads and checks in their order, computes the specified result. |
| `WireCodec.ReadFrameInfo` | src/serialize.rs:665-732 | So does the frame peek. |
| `WireCodec.ReadPacketId` | src/serialize.rs:869-977 | So does the ID parser: its reads in order, then its hashing. |
| `WireCodec.ReadHashedPayload` | src/serialize.rs:927-944 | The ID parser's payload: by its length, or decompressed from what remains, which must be something. |
| `WireCodec.HashBitmap` | src/serialize.rs:954-966 | The loop over the bitmap hashes the selected endpoints' names and fails at an unknown one. |
| `WireCodec.WriteHead` | src/serialize.rs:434-463 | The head fields are appended in wire order, the wire length only for a packed sender. |
| `WireCodec.SerializePacketInner` | src/serialize.rs:412-474 | The output buffer ends as the specified frame. |
| `WireCodec.HashBytesU64` | src/packet.rs:99-109 | The hash loop, with its three operations for each byte, computes the hash that PacketHash determines byte by byte. |
| `WireCodec.ComputePacketId` | src/packet.rs:255-278 | The packet ID as it is computed, part by part. |
| `CivilDate.CivilOfDays` | src/timesync.rs:551-573 | Every valid proleptic Gregorian date is the date of its day count. |
| `CivilDate.DaysOfCivil` | src/timesync.rs:551-573 | Every day count is the count of its date. |
| `CivilDate.CivilIsValid` | src/timesync.rs:561-573 | The date of a day count exists in the calendar. |
| `CivilDate.NextCivil` | src/timesync.rs:561-573 | The date of the next day count is the calendar's next day, by the month-length and leap-year rules. |
| `CivilDate.NextDayCounts` | src/timesync.rs:551-559 | The calendar's next day counts one more. |
| `CivilDate.Epoch` | src/timesync.rs:561-573 | Day zero is 1970-01-01. |
| `CivilDate.YearOfEraMeaning` | src/timesync.rs:563-567 | The year-of-era formula finds the year in which the day of the era lies. |
| `CivilDate.MonthAndDayMeaning` | src/timesync.rs:568-570 | The month formula finds the month and the day in it. |
| `NetworkTime.UnixRoundTrip` | src/timesync.rs:242-282 | Nanoseconds to reading and back is the identity exactly up to day 2147483647-719468, where 32-bit arithmetic ends. |
| `NetworkTime.CalendarRoundTrip` | src/timesync.rs:265-282 | Reading to nanoseconds and back is the identity exactly for dates that exist. |
| `NetworkTime.NoSuchDayIsAccepted` | src/timesync.rs:266-274 | Such as 31 February, which is accepted. |
| `NetworkTime.KnownFromUnix` | src/timesync.rs:242-263 | In range, a reading is a real date with all fields in range. |
| `NetworkTime.DayRoundTrip` | src/timesync.rs:551-573 | The 32-bit intermediates fit exactly up to that day. |
| `NetworkTime.AdvanceIsAdditive` | src/timesync.rs:546-549 | Two advances equal one exactly when the first does not end before 1970 or both do. |
| `SlewedClock.FreshClockTracks` | src/timesync.rs:325-396 | From the first steer of a new clock on, whatever its rate, the reading starts at the target, never decreases over any later steers, and differs from elapsed time by at most the clamped rate. |
| `SlewedClock.FirstSteerSettles` | src/timesync.rs:370-376 | After the first steer nothing is pending: until the next one the clock shows the target plus the time since. |
| `SlewedClock.SteerExactly` | src/timesync.rs:376-395 | A later steer anchors the clock at its reading, with the rest of the old correction and the distance to the target pending. |
| `SlewedClock.ReadExactly` | src/timesync.rs:340-358 | The reading is the anchor, the time since, and as much of the correction as the rate has let through, in whole nanoseconds. |
| `SlewedClock.ReadBeforeAnchor` | src/timesync.rs:340-358 | A monotonic time in front of the anchor reads as the anchor. |
| `SlewedClock.SaturatedExactly` | src/timesync.rs:340-395 | Saturating arithmetic gives the nearest number in range. |
| `SlewedClock.RunTracks` | src/timesync.rs:340-396 | Over any interleaving of reads and steers on nondecreasing monotonic time the reading never decreases, and differs from elapsed time by at most the slew rate plus one nanosecond of rounding in all. |
| `SlewedClock.SegmentTracks` | src/timesync.rs:340-358 | The same between two readings of one anchor. |
| `SlewedClock.ReadAfterSteer` | src/timesync.rs:376-393 | A steer does not move the current reading. |
| `SlewedClock.SteerMovesSettled` | src/timesync.rs:388-393 | A steer moves the settled offset by exactly target minus reading. |
| `SlewedClock.SettlesOnTarget` | src/timesync.rs:388-393 | So the clock settles on the target exactly when no earlier correction was left over. |
| `SlewedClock.SecondSteerOvershoots` | src/timesync.rs:388-393 | Steering twice at once toward one target overshoots by the whole distance. |
| `SlewedClock.SettledIsReached` | src/timesync.rs:340-358 | The settled offset is what the clock shows once the correction is applied. |
| `SlewedClock.SteerStaysSane` | src/timesync.rs:370-395 | Readings of a clock steered in order stay clear of saturation. |
| `SlewedClock.SlewedNetworkClock.constructor` | src/timesync.rs:327-332 | The slew rate is clamped below one million parts per million. |
| `SlewedClock.SlewedNetworkClock.ReadUnixNs` | src/timesync.rs:340-358 | Nothing before the first steer, the specified reading afterwards. |
| `SlewedClock.SlewedNetworkClock.ReadUnixMs` | src/timesync.rs:361-366 | The millisecond in which the reading lies, and nothing exactly before the first steer, before 1970 or beyond 64 bits. |
| `SlewedClock.SlewedNetworkClock.SteerUnixMs` | src/timesync.rs:370-395 | The first steer sets the clock, later ones have the specified effect. |
| `TimeLeader.AtMostOneLeader` | src/timesync.rs:608-744 | In every run of any number of nodes with distinct IDs, over a network that loses, repeats and reorders announces, two nodes that each hold an active announce of the other never both lead, whatever their roles, priorities and clocks. |
| `TimeLeader.LeaderBeatsHeard` | src/timesync.rs:651-668 | A leading node beats the configured priority of every node it hears. |
| `TimeLeader.LocalMeaning` | src/timesync.rs:627-668 | A node leads exactly when it is a candidate and beats every active source. |
| `TimeLeader.LeaderExactly` | src/timesync.rs:627-668 | The whole decision on configuration and knowledge: who may lead, who does, who is followed, and when there is no leader. |
| `TimeLeader.AnnounceExactly` | src/timesync.rs:671-685 | A leader advertises its configured priority, or one less but no less than zero if an active source has the very same; nobody else advertises. |
| `TimeLeader.EmitExactly` | src/timesync.rs:671-690 | Only a leader puts an announce on the network, and exactly this one. |
| `TimeLeader.SourcesAreLastHeard` | src/timesync.rs:608-717 | In every run a node's list holds of every sender exactly what the node last heard from it and no later refresh found stale, and nothing of itself. |
| `TimeLeader.SelectionExactly` | src/timesync.rs:735-743 | What a node has selected is the unbeaten source at its last delivery or refresh, and nobody only if none was active. |
| `TimeLeader.BestMeaning` | src/timesync.rs:615-624 | The best source is one of the active ones and none beats it. |
| `TimeLeader.BestSnoc` | src/timesync.rs:615-624 | Looking at one more source, it takes over exactly if it beats the best so far. |
| `TimeLeader.AnnounceAtMostConfigured` | src/timesync.rs:671-685 | An announced priority never exceeds the configured one, tie decrement included. |
| `TimeLeader.NextKeepsInv` | src/timesync.rs:608-744 | Every step keeps stored and travelling priorities at most their senders' configured ones, and one entry for each sender. |
| `TimeLeader.RunKeepsInv` | src/timesync.rs:608-744 | So does every run. |
| `TimeLeader.StoredMeaning` | src/timesync.rs:699-717 | An announce replaces what its sender said before and nothing else. |
| `TimeLeader.StoredListed` | src/timesync.rs:715-715 | One entry for each sender stays one entry for each sender. |
| `TimeLeader.ActiveElement` | src/timesync.rs:726-728 | Exactly the sources heard within the timeout count. |
| `TimeLeader.TimeSyncTracker.HandleAnnounce` | src/timesync.rs:699-717 | Stores the announce, ignores the node's own, reselects, and reports a change exactly when the selection changed. |
| `TimeLeader.TimeSyncTracker.Refresh` | src/timesync.rs:608-612 | Drops stale sources, reselects and reports. |
| `TimeLeader.TimeSyncTracker.ReselectSource` | src/timesync.rs:735-743 | The search through the sources selects an active one that no active one beats, and none exactly if none is active; it reports a change exactly when there is one. |
| `TimeSample.OffsetError` | src/timesync.rs:747-761 | With a true offset and nonnegative path delays, the computed delay is exact and twice the offset error is at most the path asymmetry plus one. |
| `TimeSample.OffsetFits` | src/timesync.rs:747-761 | The narrowing to 64 bits is harmless exactly when the offset fits, and some offsets do not. |
| `TimeSample.DelayExactly` | src/timesync.rs:747-761 | A negative delay counts as none, and one of 2 to the 64 milliseconds or more wraps. |
| `TimeSample.NetworkSampleExactly` | src/timesync.rs:764-775 | The assumed one-way delay and the estimate in all cases, saturation included. |
| `TimeSample.SampleIsOffsetTime` | src/timesync.rs:764-775 | Without saturation the estimated network time is receive time plus offset, one millisecond less exactly when the offset was rounded up toward zero. |
| `Topology.CleanMeaning` | src/discovery.rs:114-120 | Cleaning keeps exactly the elements, minus self-connections, sorted and without repetitions. |
| `Topology.NormalizeTopologyBoards` | src/discovery.rs:113-123 | The result is a normal form of the list and is normalized. |
| `Topology.NormalFormKeepsView` | src/discovery.rs:113-123 | Normalization loses nothing, and its outcome does not depend on the unstable sort, exactly when all boards of one sender say the same. |
| `Topology.NormalFormWith` | src/discovery.rs:121-122 | Otherwise any one of a sender's boards may be the one that survives. |
| `Topology.NormalFormView` | src/discovery.rs:113-123 | When senders agree, a normal form says exactly what the list said, self-connections aside. |
| `Topology.DistinctSendersAgree` | src/discovery.rs:113-123 | Lists that name each sender once are such lists. |
| `Topology.MergeJoins` | src/discovery.rs:126-152 | A merge is the per-sender union of both views minus self-connections, and is normalized. |
| `Topology.MergeIsUnion` | src/discovery.rs:126-152 | The same for any destination with distinct senders, normalized or not. |
| `Topology.MergeCommutes` | src/discovery.rs:126-152 | Merging normalized lists is commutative. |
| `Topology.MergeAssociates` | src/discovery.rs:126-152 | It is associative. |
| `Topology.MergeIdempotent` | src/discovery.rs:126-152 | It is idempotent. |
| `Topology.MergeOrderIrrelevant` | src/discovery.rs:126-166 | Folding learned lists in any order, with any repetition, gives the same list and the same summary. |
| `Topology.SummaryOfMerge` | src/discovery.rs:155-166 | Summarizing a merge is merging the summaries. |
| `Topology.SummaryElements` | src/discovery.rs:155-166 | The summary lists exactly what some board reaches. |
| `Topology.NormalizedUnique` | src/discovery.rs:113-123 | A normalized list is determined by what it says. |
| `Topology.MergeTopologyBoards` | src/discovery.rs:126-152 | The two loops over the keyed map compute the merge. |
| `TopologyCodec.TopologyRoundTrip` | src/discovery.rs:295-344 | Decoding the payload of any encodable list gives the sent normal form without the discovery endpoint and without empty names. |
| `TopologyCodec.NothingStripped` | src/discovery.rs:416-456 | The round trip is the identity exactly for lists without discovery endpoints and empty names. |
| `TopologyAcceptance.DecodedTopologyIsGood` | src/discovery.rs:379-475 | Whatever payload is decoded, the boards are in normal form without discovery endpoint, unknown endpoints, empty names or names that are not text. |
| `TopologyAcceptance.ReencodingKeepsTopology` | src/discovery.rs:295-475 | Every accepted payload says the same after decoding and encoding it again. |
| `TopologyAcceptance.BoardGood` | src/discovery.rs:391-464 | A refused board is refused for the first part that is at fault. |
| `TopologyCodec.EncodesExactly` | src/discovery.rs:295-344 | A list can be encoded exactly if the length of every name fits four bytes. |
| `TopologyCodec.BoardLayout` | src/discovery.rs:295-344 | The bytes of a board: four length-prefixed parts, lengths and endpoints in four bytes. |
| `TopologyCodec.ListsJoin` | src/discovery.rs:295-344 | Lists are sent one element after the other, with nothing in between. |
| `TopologyCodec.DecodeText` | src/discovery.rs:346-368 | On success the cursor has moved by the length field and the text, never past the end. |
| `TopologyCodec.DecodeBoards` | src/discovery.rs:390-465 | On success the cursor has moved past at least sixteen bytes a board and not past the end, and all boards are there. |
| `TopologyCodec.ReadTexts` | src/discovery.rs:433-438 | The string loop with its moving cursor computes the specified parse, errors included. |
| `TopologyCodec.ReadEndpoints` | src/discovery.rs:406-419 | So does the endpoint loop. |
| `TopologyCodec.ReadTextList` | src/discovery.rs:421-438 | A counted list of strings is read as specified, its missing count included. |
| `TopologyCodec.ReadBoard` | src/discovery.rs:391-464 | One board is read field by field as specified. |
| `TopologyCodec.ReadBoards` | src/discovery.rs:390-465 | So does the loop over boards. |
| `TopologyCodec.DecodeTopologyPayload` | src/discovery.rs:379-475 | A payload is accepted only if the cursor consumes all of it, and what is returned is a normal form of the parsed boards. |
| `CanonicalLists.SortDedupMeaning` | src/discovery.rs:107-110 | Sorting and deduplicating keeps exactly the elements, in strictly ascending order. |
| `CanonicalLists.AscendingUnique` | src/discovery.rs:107-110 | A strictly ascending list is determined by its elements. |

## Left out

- ReliableSystem.OrderedLinkSafety: stops before the u32 numbering wraps, because the program's two ends disagree there (the two wrap lemmas).
- ReliableSystem.AckSoundness: stops before the u32 numbering wraps, for the same reason.
- ReliableSystem.ReplayDiscipline: stops before the u32 numbering wraps, for the same reason.
- RouteSelection.EveryWindowExactly: takes a sum of weights that fits the 64-bit counter, as sums of the program's 32-bit weights do.
- ReliableReplay.CopiesExactly: stops before the u32 numbering wraps, as the link invariant does.
- ReliableReplies.PartialAcksAreHonest: stops before the u32 numbering wraps, as the link invariant does.
- ReliableRecords.RecordHasLastTime: stops before the u32 numbering wraps, as the link invariant does.
- ReliableRecords.TimeoutActsExactly: stops before the u32 numbering wraps, as the link invariant does.
- ReliableRecords.RecordTellsItsStory: stops before the u32 numbering wraps, as the link invariant does.
- ReliableHeldBack.HeldBackStays: stops before the u32 numbering wraps, as the link invariant does.
- ReliableProgress.StreamMovesOnExactly: stops before the u32 numbering wraps, and is about a number that was handed out; whether there is ever another one is up to the application.
- ReliableGap.FailedSubmitBlocksStream: stops before the u32 numbering wraps, as the link invariant does.
- QueueBudget.BudgetIsNeverExceeded: takes a positive number of recent IDs, because with 0 the program does not come to an end.
- WireRoundTrip.PacketRoundTrip: takes lengths below 2 to the 64, the width of the program's sizes, and at most 255 distinct endpoints, beyond which the program stops on an assertion.
- TopologyCodec.TopologyRoundTrip: takes lists of fewer than 2 to the 32 entries, because longer counts are truncated to 32 bits.
- TimeSample.OffsetError: takes an offset that fits 64 bits, because others are narrowed.
- Concurrency within a method: mutexes and the reentry gate; each method is one atomic step.
- Transmit handlers and clocks: their results are parameters of the steps.
- Liveness of the reliable link: frames are abandoned after the retry limit, so a stream is shown to be able to move on, not to do so.
- RouteShares.WeightedShareExactly: takes a window of selections that does not cross the wrap of the cursor; RouteSelection.EveryWindowExactly says what happens there.
- RouteShares.MeasuredShareExactly: takes a window of selections that does not cross the wrap of the cursor, for the same reason.
- RouteShares.UnmeasuredTakeTurns: takes a window of selections that does not cross the wrap of the cursor, for the same reason.
- PlanRuns.PlansShareByWeight: takes a window of plans that does not cross the wrap of the cursor, for the same reason.
- PlanRuns.PlansAdapt: takes a window of plans that does not cross the wrap of the cursor, for the same reason.
- BoundedDeques.GrownExactly: takes a product that does not saturate; bounds that hold in all cases are on the function itself.
- SlewedClock.SteerExactly: takes corrections that fit 128 bits, as those of 64-bit millisecond targets do.
- One stream is modelled per side and type; streams share only memory, whose effect on one of them is any reclaimed replay copy or buffered frame. Priorities among the replay copies of different streams are in `BoundedDeques` and `QueueBudget` only.
- Runs keep hop reliability switched on at both ends and keep the side; removing a side ends its streams.
- Whether duplicates of a frame are forwarded, and whether its dispatch succeeds, are given to the hand-off frame by frame.
- Unordered streams are modelled by the set of accepted numbers; their receivers keep no further state.
- The internals of CRC-32, zstd and UTF-8 checks, and which packets that differ in more than one byte have one hash.
- The conversion of the growth factor from float to ratio: any ratio is taken.
- How far the allocator rounds a requested capacity up: it may grant any number at least as large.
- Saturation and overflow of byte sums and of the parsers' length sums in machine words: sums are unbounded integers.
- The unstable sort in topology normalization is modelled by the relation of being a normal form, not as an algorithm.
- The head reads that all four parsers share are modelled once, and so is the expansion of the bitmap.
- Assembly of the network clock from several sources, and the encoding of time-sync and discovery announces other than topology.
- Discovery cadence timers and adaptive bandwidth averaging: the adaptive weights are arbitrary.
- Decoding the packet from which a route is learned: the announcer's statement is given.
- Control frames with ACK payloads are link messages of the stream model, not bytes.
- Ordered maps are kept as key-sorted sequences where their iteration order matters.
- Display and formatting, small-payload storage, build scripts, generated tables, and the C and Python interfaces.
- The router (src/router.rs) is not part of this model.
