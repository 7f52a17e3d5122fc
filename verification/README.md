# UCCL transport and point-to-point engine: a verified model

This project models, in Dafny, the parts of UCCL that have to be right for data to arrive: the selective-repeat transport
over AF_XDP sockets, the timing wheel and pacer that decide when its packets leave, the timer heap of the EFA transport,
and the one-sided pipelines and wire formats of the point-to-point engine. `dafny verify dfyconfig.toml` checks all of it.

## How it is built

**The transport, in three layers.**

1. `SerialNumbers`, `SackBitmap`, `Messages`, `Packets`, `PathAccounting`, `Cubic`, `Sender` and `Receiver` give the two
   halves of a flow as values and the steps the engine takes on them. All fields have the widths of the program: 32-bit
   sequence numbers compared as in section 3.2 of RFC 1982, a 1024-bit acknowledgement bitmap in sixteen words with an
   8-bit count, 16-bit path counters and a 16-bit count of consecutive timeouts.
2. `SenderInvariants`, `SenderProgress`, `SenderMessages`, `SenderSteps` and `ReceiverInvariants` prove what every step
   keeps. `Protocol` joins a sender, a receiver and a network that drops, duplicates and reorders into a state machine
   with unbounded ghost numbers; `ProtocolInvariants`, `ProtocolTheorems`, `ProtocolTimers` and `ProtocolPaths` prove
   what holds in every state of every run, and `PathRuns` what holds of the path counters under any sends, moves and
   acknowledgements. `WindowSteps`, `SenderAnswers` and `ProtocolAnswers` say exactly what the sender does about
   acknowledgements and timeouts: what it sends again, what it counts, and what becomes of the congestion windows. A
   step taken where the code's own unchecked assumptions fail (a buffer no longer in use, a count that disagrees with
   the numbers) may do anything, so that the absence of such steps is itself proved.
3. `TxTracking`, `TxQueue`, `Pcb`, `Flow`, `ReassemblyQueue` and `RxTracking` are the program's objects: buffers linked by
   `next` fields in shared packet memory, tables changed in place, a sorted reordering queue. Each method is proved to carry
   out the step of layer 1 it stands for. `FlowRuns` and `RxRuns` show that in the states of layer 2 every method may be
   called and leads to such a state again. `SystemRuns` joins the objects of both ends: whatever is called in whatever order,
   they hold a state some run of `Protocol` reaches, so the theorems about runs are theorems about the objects.

**The timing wheel** (`TimingWheel`, `Pacer`, `PacerRuns`, `PacerRates`, `Timely`, `RateSteps`) is proved as a value
over runs of pacing, reaping and requeueing, at the costs the rate controller gives. Its ring of bucket chains
(`WheelBuckets`, `WheelObjects`, `PacerObjects`) is proved to carry it out, and `PacerObjectRuns` takes the objects
through any sequence of events.

**`TimerManager`** is the indexed binary heap, proved to be a map from queue pairs to timers. **`OneSidedPipeline`** and
**`RawPipeline`** (with `OneSidedProgress` and `RawProgress`) are the two forms of the posting window, for every
behaviour of the transport below them. **`WireBytes`**, **`XferDescs`** and **`EndpointMetadata`** are the two wire
formats.

## Conventions

- A packet buffer is its frame offset. The packet memory is a map from offsets to descriptors, so a pointer is an offset
  and a dangling pointer is an offset that is not in the map.
- One direction of a flow is modelled: the sending half of one end and the receiving half of the other. The two directions
  of a connection share no state but the frame pool, which is taken as divided between them in advance.
- Path choice, the readings of the clock, completions of the kernel, round-trip samples and the cube root of CUBIC are
  inputs: everything holds whatever they are. Floating-point numbers are reals. Constants that depend on the platform
  (number of paths, packets per path, payload size) are symbols with the relations the program asserts.
- Staleness is the only thing assumed of the network: a data packet delivered is not older than 2^32 - 1024 numbers, an
  acknowledgement is newer than 2^32 numbers before the next one to be sent, and a timer entry still on the wheel when an
  acknowledgement moves the oldest number on is not older than 2^31. `ProtocolTheorems` says exactly when something stale is
  acted on (`DataIsTakenForNewIff`, `AckIsActedOnIff`, `EntryPassesIff`). Upper bounds are not assumed: they follow from
  the size of the frame pool.
- A flow holds its congestion windows as values of `Cubic.Window`, which `Cubic.CubicCC` keeps in the fields of an object.
- Which packets in flight were moved to another path, what the path counters would be without their width, and which
  entries of the wheel were put in front of others, are logged beside the state; no step reads them.
- Cycle counters of the pacer are unbounded; the program itself relies on them not turning over in a server's lifetime.
- The time asked for is kept in each entry of the wheel, for the statements about it; no step reads it after insertion.

## What the code does that one might not expect

- The test that gives a flow up compares a 16-bit counter with 102400. It never succeeds
  (`SenderProgress.NeverGivesUp`), and the periodic check always reports the flow alive (`FlowRuns.HandleTick`).
- The 8-bit bitmap count is the number of set bits modulo 256. Fast recovery is still sound: the count carried never exceeds
  the number of bits set (`ProtocolTheorems.FastRecoveryIsSelective`).
- After acknowledgements the pointer to the oldest unacknowledged buffer can point to a buffer that was never sent. The
  header test in fast recovery and the comparison of the two sequence numbers in fast retransmit are what keep it from being
  sent again.
- Comments in the transport speak of a 256-bit bitmap; the code uses 1024 bits, and so does the model.
- `deserialize_and_append_to_txtracking` reads the context of a queue entry after removing the entry. The model uses the
  value the entry had.
- The CUBIC curve is read at the time since the last update, not since the start of the epoch, because the start of the epoch
  is added in and taken off again (`Cubic.AvoidanceFollowsCurve`).
- The count of duplicate acknowledgements is 16 bits wide. After 65536 duplicates in a row it is zero again, and fast
  retransmit comes a second time (`ProtocolAnswers.CountsAreRight` and `DuplicateIsAnswered`).
- Counters per path stay exact as long as no packet takes the ring slot of one still in flight on another path;
  `PathAccounting.SendKeepsExactIff` gives the exact condition.
- Retransmissions take no notice of the windows, so a path can hold more packets than its cap, and at 2^16 of them its
  counter is zero again and the path looks empty. Up to there packets in flight never exceed the caps plus the
  retransmissions that changed path (`ProtocolPaths.InFlightIsCapped`); past it they can (`PathRuns.WrappedCounter`).
  `PathRuns.CappedIff` is the exact condition.
- On a machine where half a microsecond is not a whole number of cycles, the slot width is rounded down while the horizon is
  not, and the ring falls short of the horizon. `Timely.FullWheelFails` shows the fatal test on the slot number failing for
  as many full packets as the wheel is meant to hold, at 2.999 GHz. `Timely.MachineNeverFailsIff` is the exact condition for
  runs, and `Timely.WholeWidthSuffices` shows that it holds when the width is whole.
- Two packets paced for the same time on a slot boundary can leave in the wrong order (`TimingWheel.EqualTimesCanSwap`).
  `TimingWheel.InsertKeepsOrderIff` gives the exact condition; strictly increasing times never meet it, and so the order is
  kept in every run in which no packet is free (`PacerRuns.PositiveCostsKeepOrder`). A packet is free if it takes less than
  a cycle (`Timely.CostIsPositiveIff`).
- The batched pipeline returns at once when a batch is refused, with operations still in flight; the other form drains them
  first. `RawPipeline.DrainsIff` says for which vectors and windows nothing can be left behind.
- Outside the CXI transport the other form takes every answer that is not transient for an accepted post: a fatal answer is
  counted as posted, in the model as in the code.
- A message without a single byte is done at once in `tx_messages`, but the thread that segments messages would dereference a
  null tail for it (`TxQueue.TxQueue.Segment` and `TxMessages`).
- Endpoint metadata with an IPv6 address is read back as IPv4 when byte 6 of the address is the length of the bus id plus
  12, and a bus id of more than 255 bytes is cut (`EndpointMetadata.RoundTripIff`).
- A list of transfer descriptors cut just before the last inter-process part is read without complaint
  (`XferDescs.TruncationIsNoticed`).

## Model

| member | source | states |
|---|---|---|
| SerialNumbers.DiffIsExact | collective/afxdp/transport_cc.h:18-32 | the signed 32-bit difference of two wrapped numbers is their true difference exactly when that is in [-2^31, 2^31) |
| SerialNumbers.ComparatorsDecideOrder | collective/afxdp/transport_cc.h:18-32 | within 2^31 of each other the wrapped comparators decide the order of the unbounded numbers |
| SerialNumbers.LtBothWays | collective/afxdp/transport_cc.h:18-20 | two numbers precede each other exactly when they are 2^31 apart |
| SerialNumbers.StrictTotalOrder | collective/afxdp/transport.h:324-330 | the reordering queue's comparator is a strict total order on keys within half the number space |
| SackBitmap.ShiftMovesEveryBit | collective/afxdp/transport_cc.h:100-119 | shifting sixteen words is shifting one vector of 1024 bits by one place |
| SackBitmap.BitSetSetsOneBit | collective/afxdp/transport_cc.h:121-132 | setting a bit sets that bit and no other |
| SackBitmap.CountShift | collective/afxdp/transport_cc.h:100-119 | the number of set bits goes down by one exactly when bit 0 was set |
| SackBitmap.CountBitSetBelow | collective/afxdp/transport_cc.h:121-132 | setting a clear bit adds one to the number of set bits from there on |
| Messages.ChunksJoin | collective/afxdp/transport.cc:1043-1067 | the pieces of a message are non-empty, within the frame size, and join to the message |
| Messages.PieceAt | collective/afxdp/transport.cc:1043-1067 | piece i of a message is its i-th stretch of the size of a frame: there are as many as that takes, and all but the last are full |
| Messages.FlaggedShape | collective/afxdp/transport.cc:712-741 | over any cut-off the flags mark exactly the first and the last piece of a message |
| Messages.ReassemblyUndoesSegmentation | collective/afxdp/transport.cc:179-215 | reading the frames of any list of non-empty messages gives back exactly those messages |
| Messages.CompleteIsMonotone | collective/afxdp/transport.cc:179-215 | the messages complete in a prefix of a stream are the first messages of the stream |
| PathAccounting.AckKeepsExact | collective/afxdp/transport.cc:496-523 | taking an acknowledged packet off its path's counter keeps all counters exact |
| PathAccounting.MoveKeepsExact | collective/afxdp/transport.cc:559-563 | moving a packet to another path keeps all counters exact, and its old path's counter was positive |
| PathAccounting.SendKeepsExactIff | collective/afxdp/transport.cc:662-664 | with at most 4096 packets in flight, sending one more keeps counters exact if and only if fewer than 4096 are, or the one whose ring slot it takes is on the same path |
| PathAccounting.MoveKeepsPaid | collective/afxdp/transport.cc:457-461 | sending a packet again keeps every path within its cap plus the packets moved to it; staying on the path adds nothing |
| PathAccounting.InFlightBound | collective/afxdp/transport.cc:634-665 | packets in flight are at most the sum of the caps plus the packets in flight that were moved to another path, and fewer if a path has room |
| Cubic.AckKeepsBounds | collective/afxdp/tcp_cubic.h:23-58 | an acknowledgement keeps the window between 1 and its cap and never lowers it |
| Cubic.LossKeepsBounds | collective/afxdp/tcp_cubic.h:60-72 | a loss keeps the window between 1 and its cap and never raises it |
| Cubic.AckRises | collective/afxdp/tcp_cubic.h:23-58 | below its cap a window rises with every acknowledgement |
| Cubic.AvoidanceFollowsCurve | collective/afxdp/tcp_cubic.h:35-53 | at or above the threshold the window goes to the cubic curve if that is higher, and otherwise up by packets over window; the curve is read at the time since the last update |
| Cubic.CurveStartsAtThreshold | collective/afxdp/tcp_cubic.h:36-44 | with an exact cube root the curve starts at the threshold the loss has set |
| Cubic.CubicCC.constructor | collective/afxdp/tcp_cubic.h:11-20 | a window starts at one packet, within its cap |
| Cubic.CubicCC.OnAckReceived | collective/afxdp/tcp_cubic.h:23-58 | the object's fields follow the window function and stay within bounds |
| Cubic.CubicCC.OnPacketLoss | collective/afxdp/tcp_cubic.h:60-72 | the object's fields follow the loss function and stay within bounds |
| Sender.AcceptedAckIsInFlight | collective/afxdp/transport.cc:485-492 | an acknowledgement that passes the range tests covers packets in flight only |
| Sender.FireOneShortensSlot | collective/afxdp/transport_cc.h:87-95 | a retransmission lands in another slot, so draining the ready slot ends |
| SenderInvariants.RecoverSendsMissing | collective/afxdp/transport.cc:438-475 | the walk beside the bitmap sends exactly the packets at clear bits before the reported number of set bits, and the header test always succeeds |
| SenderInvariants.MissingIsClear | collective/afxdp/transport.cc:438-475 | the walk stays within the packets in flight and visits clear places in ascending order |
| SenderInvariants.DuplicateAckKeeps | collective/afxdp/transport.cc:401-484 | a duplicate acknowledgement keeps the sender's invariant and only sends packets in flight again |
| SenderInvariants.DrainKeeps | collective/afxdp/transport.cc:382-388 | draining the ready slot sends exactly its live packets again and keeps the invariant |
| SenderProgress.NeverGivesUp | collective/afxdp/transport_cc.h:96-98 | a 16-bit count never reaches the limit at which the flow would be given up |
| SenderProgress.PeriodicCheckKeeps | collective/afxdp/transport.cc:375-391 | a tick sends the live packets of the next slot again, in order, and empties that slot |
| SenderProgress.TransmitOneKeeps | collective/afxdp/transport.cc:659-680 | a new packet gets the next number and a timer entry, and the invariant holds again |
| SenderProgress.ReceiveAcksReleases | collective/afxdp/transport.cc:5-47 | acknowledging k packets frees exactly the k oldest buffers in flight |
| SenderProgress.SettlePathsKeepsExact | collective/afxdp/transport.cc:496-523 | settling acknowledged packets keeps counters exact and every path within its cap plus the packets moved to it |
| SenderProgress.AcceptAckKeeps | collective/afxdp/transport.cc:485-528 | an acknowledgement of new data keeps the sender's invariant with the oldest number moved on |
| SenderMessages.FinishedAreWhole | collective/afxdp/transport.cc:5-47 | a prefix of the stream has at least k last frames if and only if it contains the first k messages whole |
| SenderMessages.ReceiveAcksCompletes | collective/afxdp/transport.cc:28-38 | acknowledging a stretch of the stream completes, oldest first, one context for each last frame in it |
| SenderMessages.EnoughContexts | collective/afxdp/transport.cc:28-38 | there is a waiting context for every last frame still to be acknowledged |
| SenderMessages.AppendKeepsQueue | collective/afxdp/transport.cc:693-760 | appending under any budget keeps the frames still to come and those appended together the same |
| SenderMessages.AppendKeepsContexts | collective/afxdp/transport.cc:762-766 | a message's context goes to the waiting list with its first buffer and stays in order |
| SenderSteps.TransmitStep | collective/afxdp/transport.cc:659-680 | sending keeps everything the sender's invariant says, messages and contexts included |
| SenderSteps.ActedOnIff | collective/afxdp/transport.cc:397-486 | an acknowledgement of any age is acted on if and only if, modulo 2^32, it lies between the oldest number in flight and the next one |
| SenderSteps.ProcessAckStep | collective/afxdp/transport.cc:393-530 | any acknowledgement keeps the whole invariant; the oldest number becomes the acknowledged one if that is newer; no timer entry is lost |
| SenderSteps.TickStep | collective/afxdp/transport.cc:375-391 | a tick keeps the whole invariant |
| SenderSteps.SubmitStep | collective/afxdp/transport.cc:1032-1072 | queueing a non-empty message keeps the whole invariant with the message added to the log |
| SenderSteps.AppendStep | collective/afxdp/transport.cc:693-773 | appending keeps the whole invariant with the appended frames added to the stream |
| WindowSteps.LengthsSumUp | collective/afxdp/transport.cc:497-514 | the stretches of consecutive acknowledged packets on a path hold exactly the packets on it |
| WindowSteps.AcceptAckGrows | collective/afxdp/transport.cc:496-516 | the loop that accumulates acknowledged packets grows the window of each path once for each stretch on it, by its length |
| WindowSteps.AckedWindows | collective/afxdp/transport.cc:496-516 | a path with none of the acknowledged packets keeps its window; one with some rises unless it is at its cap; in slow start it rises by their number, up to the cap |
| WindowSteps.SlowStartCounts | collective/afxdp/tcp_cubic.h:31-34 | slow start holds through all stretches if there is one, or the cap is below the threshold, or the threshold is not passed |
| WindowSteps.LossesCut | collective/afxdp/tcp_cubic.h:60-72 | n losses leave 0.3^n of a window, but one packet at least; the threshold is 0.7 of the window before the last |
| WindowSteps.TimeoutCuts | collective/afxdp/transport.cc:556-581 | a timeout moves the packet to the path drawn, and cuts the window of that path and of no other |
| WindowSteps.TickCuts | collective/afxdp/transport.cc:375-391 | a tick cuts the window of each path as often as the path was drawn for a due packet still in flight |
| WindowSteps.AdmitsIff | collective/afxdp/transport.cc:640-643 | a path takes a new packet if and only if its counter with the packet is no more than its window |
| WindowSteps.SendStaysInWindow | collective/afxdp/transport.cc:637-664 | after a packet is sent its path has one more in flight, no more than its window, and no other path or window has changed |
| SenderAnswers.MissingIff | collective/afxdp/transport.cc:436-476 | fast recovery sends exactly the places that are clear, within the budget, and have fewer set ones before them than reported |
| SenderAnswers.DuplicateAnswer | collective/afxdp/transport.cc:402-484 | a duplicate is counted modulo 2^16 and answered by that count: below ten with nothing, at ten with the oldest packet in flight, above ten with what the bitmap shows missing |
| SenderAnswers.NewAnswer | collective/afxdp/transport.cc:487-529 | an acknowledgement of new data sends nothing, sets the counts of duplicates, reordered packets and timeouts to zero, and grows each window by its stretches |
| ReceiverInvariants.BufferKeepsMapped | collective/afxdp/transport.cc:152-156 | after buffering, bit i is set exactly when the frame i places ahead is buffered, and the 8-bit count is the number of bits modulo 256 |
| ReceiverInvariants.PushKeepsMapped | collective/afxdp/transport.cc:164-177 | after pushing the expected frame and shifting, the bitmap again says exactly what is buffered |
| ReceiverInvariants.ClassifyByNumber | collective/afxdp/transport.cc:121-148 | up to 2^32 - 1024 stale, a packet is taken for old, untrackable, duplicate or new according to its unbounded number |
| ReceiverInvariants.TakenForNewIff | collective/afxdp/transport.cc:121-148 | a packet of any age is taken for new if and only if its number modulo 2^32 lies in the window and is not buffered |
| ReceiverInvariants.ConsumeStep | collective/afxdp/transport.cc:110-162 | taking in a packet keeps the receiver's invariant, and changes nothing when the frame is held already or beyond the window |
| ReceiverInvariants.ConsumeHolds | collective/afxdp/transport.cc:110-177 | afterwards the receiver holds exactly the frames it held before and, if in the window, the packet's own |
| ReceiverInvariants.SupplyStep | collective/afxdp/transport.cc:179-186 | supplying a buffer keeps the receiver's invariant |
| ReceiverInvariants.CopyOutStep | collective/afxdp/transport.cc:1076-1123 | copying a message out keeps the receiver's invariant: whole messages, in order, to the buffers in order |
| ReceiverInvariants.CopyOutDelivers | collective/afxdp/transport.cc:1086-1123 | what has been copied out is exactly the messages of the frames that have gone |
| ProtocolInvariants.StepIsSafe | collective/afxdp/transport.cc:231-581 | in a sound state every step meets the code's unchecked assumptions and leads to a sound state |
| ProtocolInvariants.RunKeepsInv | collective/afxdp/transport.cc:231-773 | every state of every run is sound |
| ProtocolTheorems.InOrderDelivery | collective/afxdp/transport.cc:110-177 | in every run the frames pushed are exactly the first rcv_nxt frames of the stream, in order and once each, and snd_una ≤ rcv_nxt ≤ snd_nxt in unbounded numbers |
| ProtocolTheorems.StreamGrows | collective/afxdp/transport.cc:693-773 | the stream, the messages and the oldest number only grow |
| ProtocolTheorems.DoneMeansDelivered | collective/afxdp/transport.cc:5-47 | the k-th context done is the k-th asked for, and every frame of the first k messages has been pushed by the peer |
| ProtocolTheorems.MessagesReachTheirBuffers | collective/afxdp/transport.cc:1032-1123 | in every run and interleaving the n-th message's exact bytes go to the n-th supplied buffer |
| ProtocolTheorems.EveryBufferHasOnePlace | collective/afxdp/transport.cc:110-215 | every receive buffer is in exactly one of the pool, the reordering queue and the line of frames behind it |
| ProtocolTheorems.BuffersAreConserved | collective/afxdp/transport.cc:110-215 | no receive buffer is ever lost or made |
| ProtocolTheorems.RecoverySendsOnlyMissing | collective/afxdp/transport.cc:414-483 | fast recovery sends, in ascending order, only packets in flight that the receiver did not hold |
| ProtocolTheorems.FastRecoveryIsSelective | collective/afxdp/transport.cc:401-484 | in every run a duplicate acknowledgement past the threshold is answered only with packets its sender did not hold |
| ProtocolTheorems.HandOverIsGreedy | collective/afxdp/transport.cc:179-215 | messages handed over are as many as both supplied buffers and complete messages allow |
| ProtocolTheorems.DataIsTakenForNewIff | collective/afxdp/transport.cc:119-148 | in every run, exactly when a data packet in the network is taken for new; one already pushed only if stale by more than 2^32 - 1024 |
| ProtocolTheorems.AckIsActedOnIff | collective/afxdp/transport.cc:397-486 | in every run, exactly when an acknowledgement in the network is acted on; one behind the oldest number only if a whole turn before the next one |
| ProtocolTheorems.EntryPassesIff | collective/afxdp/transport.cc:382-388 | in every run a timer entry of any age passes the timer's test if and only if its number is less than 2^31 ahead of the oldest in flight modulo 2^32; within one turn behind, that is more than 2^31 behind |
| ProtocolTimers.InFlightIsDue | collective/afxdp/transport_cc.h:87-95 | every packet in flight has a timer entry that fires within three ticks |
| ProtocolTimers.TickFiresOrNears | collective/afxdp/transport.cc:375-391 | at a tick a packet in flight is sent again or comes one tick nearer to it |
| ProtocolTimers.ThreeTicksResend | collective/afxdp/transport.cc:375-391 | in every run a packet in flight throughout three ticks has been sent again by the timer |
| ProtocolTimers.FirstTimeoutWaits | collective/afxdp/transport_cc.h:78-98 | in every run the timer does not send a packet again before the third tick after it was first sent |
| ProtocolPaths.CountersAreExact | collective/afxdp/transport.h:250-257 | in every run with at most 4096 packets in flight each counter is the number of packets in flight on its path, and exceeds its cap by no more than the packets moved to it |
| ProtocolPaths.NoCounterUnderflows | collective/afxdp/transport.h:254-257 | no decrement meets a zero counter |
| ProtocolPaths.FewMovedFit | collective/afxdp/transport.cc:634-665 | while caps and moved packets in flight together stay within 4096, no more than 4096 packets fly |
| ProtocolPaths.SmallFlightIsCapped | collective/afxdp/transport.cc:634-665 | in every run with at most 4096 packets in flight up to a state, those in flight there never exceed the sum of the caps plus the packets in flight moved to another path, which are no more than the retransmissions that did so |
| ProtocolPaths.InFlightIsCapped | collective/afxdp/transport.cc:634-665 | in every run, however many packets are in flight, they never exceed the sum of the caps plus the retransmissions that changed path, as long as one cap and these together are below 2^16 |
| PathRuns.RunKeepsTallied | collective/afxdp/transport.h:250-257 | up to there each 16-bit counter is the number of packets on its path modulo 2^16, these numbers sum to the packets in flight, and their excess over the caps is no more than the moves |
| PathRuns.WrappedCounter | collective/afxdp/transport.cc:634-665 | with two paths or more, 2^16 less one cap of moves are enough to bring a counter back to zero and 2^16 packets more than the caps into flight |
| PathRuns.CappedIff | collective/afxdp/transport.cc:634-665 | packets in flight stay within the caps plus the moves in all sequences with up to a given number of moves if and only if there is one path, or one cap and that number together are below 2^16 |
| ProtocolAnswers.DuplicateIsAnswered | collective/afxdp/transport.cc:402-484 | in every run, what a duplicate acknowledgement puts into the network, by the count it brings: nothing, the oldest packet in flight, or all packets the receiver lacked before the last one it reports, in order, as far as the budget reaches |
| ProtocolAnswers.NewDataIsSettled | collective/afxdp/transport.cc:487-529 | in every run an acknowledgement of new data is answered with nothing, resets the counts and grows each window by its stretches |
| ProtocolAnswers.OldIsDropped | collective/afxdp/transport.cc:398-400 | in every run an old acknowledgement changes nothing |
| ProtocolAnswers.CountsAreRight | collective/afxdp/transport.cc:402-529 | in every state of every run the counts of duplicates and of timeouts are the numbers of them since the oldest number in flight last moved, modulo 2^16 |
| ProtocolAnswers.TenthDuplicateResends | collective/afxdp/transport.cc:410-413 | in every run the tenth duplicate in a row makes the sender send the oldest packet in flight again |
| ProtocolAnswers.TickCutsDrawnPaths | collective/afxdp/transport.cc:375-391 | in every run a tick leaves 0.3^n of the window of a path drawn n times for a due packet in flight, one packet at least, and all other windows as they are |
| ProtocolAnswers.WindowIsAcked | collective/afxdp/tcp_cubic.h:31-34 | in every run the window of a path no timeout has put a packet on is one plus the packets acknowledged on it, up to the cap |
| ProtocolAnswers.SendsStayInWindow | collective/afxdp/transport.cc:637-664 | in every run a new packet may go on exactly the paths whose window has room for it, and then its path has no more in flight than its window |
| TxTracking.ReleasedKeeps | collective/afxdp/transport.cc:9-44 | releasing the oldest buffer keeps the chain as in-flight then unsent, with the three pointers at the right buffers |
| TxTracking.AppendedKeeps | collective/afxdp/transport.cc:49-82 | hanging a chain behind the last buffer keeps chain and pointers right |
| TxTracking.TakenKeeps | collective/afxdp/transport.cc:84-108 | taking the oldest unsent buffer keeps chain and pointers right |
| TxTracking.TxTracking.ReceiveAcks | collective/afxdp/transport.cc:5-47 | the loop over linked buffers carries out the acknowledgement step and never releases an unsent buffer |
| TxTracking.TxTracking.Append | collective/afxdp/transport.cc:49-82 | the new buffers come behind the unsent ones, with the message's context |
| TxTracking.TxTracking.GetAndUpdateOldestUnsent | collective/afxdp/transport.cc:84-108 | the oldest unsent buffer becomes the youngest in flight; none is returned exactly when there is none |
| TxQueue.TxQueue.Segment | collective/afxdp/transport.cc:1041-1067 | the loop makes a chain of fresh buffers holding exactly the pieces of the message; the program stops exactly when the pool runs out or the message is empty |
| TxQueue.TxQueue.FlagBuffers | collective/afxdp/transport.cc:710-744 | the walk flags the first and last buffer of a message and stops at the budget |
| TxQueue.TxQueue.AppendMessage | collective/afxdp/transport.cc:693-766 | flagging, cutting and appending carries out the append step; the rest stays queued |
| TxQueue.TxQueue.DeserializeAndAppend | collective/afxdp/transport.cc:693-773 | appending repeats until the queue is empty or the chain holds enough unsent buffers |
| TxQueue.TxQueue.TxMessages | collective/afxdp/transport.cc:327-345 | a message is queued behind the others and what fits goes to the chain; one without a byte is done at once and changes nothing else |
| Pcb.Pcb.GetSndNxt | collective/afxdp/transport_cc.h:60-64 | the next number is returned and advanced modulo 2^32 |
| Pcb.Pcb.AddToRtoWheel | collective/afxdp/transport_cc.h:88-91 | an entry goes to the slot three ticks ahead |
| Pcb.Pcb.SackBitmapShiftLeftOne | collective/afxdp/transport_cc.h:100-119 | the in-place loop over words is the one-bit shift of the whole map |
| Pcb.Pcb.SackBitmapBitSet | collective/afxdp/transport_cc.h:121-132 | the in-place update sets one bit and counts modulo 256 |
| Flow.PathTable.MovePath | collective/afxdp/transport.cc:559-563 | the table follows the move of a packet to another path |
| Flow.PathTable.RecordSent | collective/afxdp/transport.cc:662-665 | the table follows a new packet and remembers when its path was used |
| Flow.UcclFlow.FastRetransmit | collective/afxdp/transport.cc:532-554 | the oldest packet in flight is sent again, if there is one |
| Flow.UcclFlow.RecoverMissing | collective/afxdp/transport.cc:438-475 | the walk over linked buffers carries out fast recovery |
| Flow.UcclFlow.SettleAcked | collective/afxdp/transport.cc:496-523 | the loop over acknowledged packets settles counters and grows each path's window once for each stretch |
| Flow.UcclFlow.CountDuplicate | collective/afxdp/transport.cc:401-484 | a duplicate is counted and answered by nothing, fast retransmit or fast recovery |
| Flow.UcclFlow.ProcessAck | collective/afxdp/transport.cc:393-530 | the object takes the step of the sender for every acknowledgement and touches no buffer outside the chain |
| Flow.UcclFlow.RtoRetransmit | collective/afxdp/transport.cc:556-581 | the packet is sent again on the path drawn; the window of that path becomes 0.3 of what it was, one packet at least, and no other changes |
| Flow.UcclFlow.PeriodicCheck | collective/afxdp/transport.cc:375-391 | the loop over the ready slot carries out a tick |
| Flow.UcclFlow.FindPath | collective/afxdp/transport.cc:637-650 | a path with room is found, or sixteen draws in a row had none |
| Flow.UcclFlow.TransmitPendingPackets | collective/afxdp/transport.cc:628-681 | packets go out on paths with room, at most as many as permitted; it stops early only for lack of packets or of a path; with a positive interval no path is used twice |
| FlowRuns.AcksComplete | collective/afxdp/transport.cc:28-38 | in reachable states the list of waiting contexts is never found empty |
| FlowRuns.TimersPointIntoChain | collective/afxdp/transport.cc:382-388 | in reachable states every entry that passes the timer's test points to a buffer of the chain |
| FlowRuns.StartFlow | collective/afxdp/transport.h:388-410 | a new flow is a sound state of the protocol |
| FlowRuns.HandleAck | collective/afxdp/transport.cc:393-530 | the objects go from one sound state of the protocol to the next, all they sent is handed to the network, and queued messages stay as they are |
| FlowRuns.HandleTick | collective/afxdp/transport.cc:375-391 | the same for a tick, which always reports the flow alive |
| FlowRuns.HandleTransmit | collective/afxdp/transport.cc:587-691 | the same for sending a batch |
| FlowRuns.HandleMessage | collective/afxdp/transport.cc:327-345 | the same for a message of any length; afterwards the queue is empty or the chain full |
| FlowRuns.HandleAppend | collective/afxdp/transport.cc:693-773 | the same when the queue is resumed on its own after packets came in: the rest of a long message goes to the chain as far as it fits |
| FlowRuns.OneMessage | collective/afxdp/transport.cc:327-530 | message, transmission, acknowledgement, tick and repeated acknowledgement on a new flow: the context is done if and only if the whole message was sent |
| ReassemblyQueue.LowerBound | collective/afxdp/transport.cc:136-138 | the first entry not before a number |
| ReassemblyQueue.FoundAtLowerBound | collective/afxdp/transport.cc:136-143 | looking at the lower bound alone decides whether a number of the window is buffered |
| ReassemblyQueue.InsertKeeps | collective/afxdp/transport.cc:152-153 | inserting there keeps the queue sorted and adds exactly that entry |
| ReassemblyQueue.ExpectedIsInFront | collective/afxdp/transport.cc:165-166 | the expected number is buffered exactly when it is at the front |
| ReassemblyQueue.PopKeeps | collective/afxdp/transport.cc:166-175 | taking the front off and moving on keeps the queue sorted within the new window |
| RxTracking.RxTracking.Consume | collective/afxdp/transport.cc:110-162 | the object takes the step of the receiver and reports the right outcome |
| RxTracking.RxTracking.PushInorderMsgbufToApp | collective/afxdp/transport.cc:164-177 | the loop pushes frames as long as the expected one is there |
| RxTracking.RxTracking.TryCopyMsgbufToAppbuf | collective/afxdp/transport.cc:179-215 | the loop gathers linked chains and hands whole messages over |
| RxTracking.RxTracking.CopyToApp | collective/afxdp/transport.cc:1074-1123 | the walk copies exactly the message's bytes and returns each buffer once |
| RxRuns.StartReceiver | collective/afxdp/transport.h:284-330 | a new receiver is a sound state |
| RxRuns.HandleData | collective/afxdp/transport.cc:110-162 | the objects go from one sound state to the next for every packet within the staleness bound |
| RxRuns.HandleSupply | collective/afxdp/transport.cc:179-186 | the same for a supplied buffer |
| RxRuns.HandleCopy | collective/afxdp/transport.cc:1074-1123 | the same for copying a message out |
| RxRuns.CraftAck | collective/afxdp/transport.cc:875-919 | the acknowledgement carries the expected number, the bitmap and its count |
| SystemRuns.StepIsReached | collective/afxdp/transport.cc:231-773 | every step enabled in a state a run reaches is safe and leads to a state a run reaches |
| SystemRuns.SendsAreReached | collective/afxdp/transport.cc:628-681 | a batch of packets sent by the objects is a row of protocol steps, and exactly those packets are in the network |
| SystemRuns.TakeMessage | collective/afxdp/transport.cc:327-345 | objects of both ends stay in a state a run reaches when a message is handed over |
| SystemRuns.AppendPending | collective/afxdp/transport.cc:320 | the same when the queue is resumed after a batch was received; only the sender's chain and stream change, and the stream grows |
| SystemRuns.TransmitBatch | collective/afxdp/transport.cc:587-691 | the same when a batch is sent |
| SystemRuns.ReceiveAck | collective/afxdp/transport.cc:393-530 | the same when an acknowledgement comes out of the network |
| SystemRuns.TimerTick | collective/afxdp/transport.cc:375-391 | the same at a tick |
| SystemRuns.ReceiveData | collective/afxdp/transport.cc:110-162 | the same when a data packet comes out of the network |
| SystemRuns.AnswerWithAck | collective/afxdp/transport.cc:875-919 | the same when an acknowledgement is sent |
| SystemRuns.SupplyBuffer | collective/afxdp/transport.cc:179-186 | the same when a buffer is supplied |
| SystemRuns.CopyMessage | collective/afxdp/transport.cc:1074-1123 | the same when a message is copied out |
| SystemRuns.NetworkMoves | collective/afxdp/transport.cc:231-773 | the same when the network drops or duplicates a packet |
| SystemRuns.ObjectsDeliver | collective/afxdp/transport.cc:1032-1123 | whatever was called, the receiving objects have delivered exactly the messages handed to the sending ones, in order and to the right buffers, and contexts marked done are of messages received |
| SystemRuns.OneFrame | collective/afxdp/transport.cc:110-1123 | new objects at both ends take a message of one frame from hand-over to delivery: if it could be sent at all, its bytes are in the supplied buffer and its context is done |
| TimingWheel.ReapIsOnTime | collective/afxdp/timing_wheel.h:148-156 | reaping makes nothing ready before its time |
| TimingWheel.ReapLeavesNothingLate | collective/afxdp/timing_wheel.h:148-156 | nothing stays on the wheel that was asked for a slot width ago or more |
| TimingWheel.InsertIsOnTime | collective/afxdp/timing_wheel.h:170-197 | an entry's slot is not before the time asked for and at most one width after it |
| TimingWheel.InsertKeepsOrderIff | collective/afxdp/timing_wheel.h:158-197 | for times that never decrease, an insertion keeps the order if and only if it does not put the entry, due just when the first slot is, in front of a different one in the second |
| TimingWheel.LaterOvertakesNone | collective/afxdp/timing_wheel.h:158-197 | an entry asked for strictly later than the last one is never put in front of another |
| TimingWheel.EqualTimesCanSwap | collective/afxdp/timing_wheel.h:183-194 | two equal times on a slot boundary can leave in the wrong order |
| TimingWheel.NoOvershootIff | collective/afxdp/timing_wheel.h:172-192 | no request within the horizon overshoots the ring if and only if the horizon is at most one slot short of the ring |
| Pacer.RequeueShrinks | collective/afxdp/transport_cc.h:236-241 | each round of requeueing leaves one entry fewer that is ready or about to be, so the loop ends though it can itself reap |
| Pacer.RequeueConserves | collective/afxdp/transport_cc.h:235-243 | requeueing loses nothing, duplicates nothing and empties the ready queue |
| Pacer.ReadyPacketsConserves | collective/afxdp/transport_cc.h:219-252 | handing out takes the oldest ready packets, all of them or as many as the budget allows, reports their number, and keeps the others |
| PacerRuns.PaceKeeps | collective/afxdp/transport_cc.h:206-217 | with costs, number held and horizon in proportion, pacing one more packet trips no fatal test |
| PacerRuns.PaceKeepsOrderIff | collective/afxdp/transport_cc.h:206-217 | pacing a packet keeps the order if and only if it overtakes none, and one that is not free overtakes none |
| PacerRuns.EveryRunIsSound | collective/afxdp/transport_cc.h:206-252 | in every run whose sizes fit neither fatal test fails, packets on the wheel, ready and handed out are on time, and they leave in order as long as none overtook another |
| PacerRuns.NeverFailsIff | collective/afxdp/timing_wheel.h:170-191 | no fatal test fails in any run if and only if as many of the dearest packets as may be held fit into the horizon and into the ring less one slot |
| PacerRuns.PositiveCostsKeepOrder | collective/afxdp/transport_cc.h:206-252 | in every run in which no packet is free, packets leave in the order they were put on the wheel |
| PacerRuns.StepConserves | collective/afxdp/transport_cc.h:206-252 | a step adds the packet sent and removes the packets handed out, and nothing else |
| PacerRuns.RunConserves | collective/afxdp/transport_cc.h:206-252 | in every run the packets taken in are exactly those handed out and those still held |
| PacerRates.PaceSpaces | collective/afxdp/transport_cc.h:206-217 | a packet is asked for its cost after the last one, or at once if that is later |
| PacerRates.RequeueSpaces | collective/afxdp/transport_cc.h:235-243 | packets put back are asked for in the same way, one after the other |
| PacerRates.RunsAreSpaced | collective/afxdp/transport_cc.h:206-252 | in every run each packet is asked for at least its least cost after the one put on the wheel before it |
| PacerRates.OverdueIsHandedOut | collective/afxdp/transport_cc.h:219-252 | in every run each packet held that was asked for a slot width ago or earlier is handed out when the budget covers all that are ready |
| Timely.Timely.UpdateRate | collective/afxdp/timely.h:103-175 | the fields follow the update function: bypass, additive increase, gradient rule or multiplicative decrease, then the clamp |
| Timely.UpdateKeepsBounds | collective/afxdp/timely.h:103-175 | the rate stays between the minimum and the link's and is at most halved; a round trip below the low mark never lowers it and one above the high mark never raises it |
| Timely.CostIsBounded | collective/afxdp/transport_cc.h:206-210 | no packet costs more cycles than a full one at the minimum rate |
| Timely.CostIsPositiveIff | collective/afxdp/transport_cc.h:206-210 | a packet is not free if and only if it takes a cycle or more at the rate |
| Timely.CapFitsHorizon | collective/afxdp/timing_wheel.h:56-58 | as many full packets as the wheel is meant for fit into the horizon |
| Timely.RingCoversHorizon | collective/afxdp/timing_wheel.h:64-65 | the ring covers the horizon when half a microsecond is a whole number of cycles |
| Timely.MachineNeverFailsIff | collective/afxdp/timing_wheel.h:56-111 | in no run at the controller's rates does a fatal test fail, if and only if the full packets the wheel is meant for, at the minimum rate, fit on the ring |
| Timely.MachineIsSound | collective/afxdp/transport_cc.h:206-252 | in every such run packets are on time, and in order if the smallest packet takes a cycle or more at the link's bandwidth |
| Timely.WholeWidthSuffices | collective/afxdp/timing_wheel.h:107-111 | with a whole slot width they fit |
| Timely.RingCanFallShort | collective/afxdp/timing_wheel.h:107-111 | at 2.999 GHz they do not |
| Timely.FullWheelFails | collective/afxdp/timing_wheel.h:172-191 | there it is the fatal test on the slot number, not the one on the horizon, that fails, at the very last of the packets the wheel is meant for |
| PacerRates.NeverFasterThanLink | collective/afxdp/transport_cc.h:197-252 | in every run at the controller's rates any stretch of packets takes at least as long as the link takes for them |
| RateSteps.UpdateByMarks | collective/afxdp/timely.h:103-178 | a sample that is not passed over moves the smoothed gradient and sets the rate: increase below the low mark, decrease above the high one, between them the mean of both by the gradient |
| RateSteps.GradientFalls | collective/afxdp/timely.h:89-160 | between the marks the rate falls with the gradient, and lies between pure decrease and pure increase |
| RateSteps.ShortTripsRaise | collective/afxdp/timely.h:130-138 | n short round trips at their least distance raise the rate by n steps, up to the link's |
| WheelBuckets.ChainLength | collective/afxdp/timing_wheel.h:199-213 | a slot with m entries has exactly m / 5 buckets of the pool chained |
| WheelObjects.ChainedAtMost | collective/afxdp/timing_wheel.h:243-248 | five times the chained buckets never exceed the entries, so the pool suffices |
| WheelObjects.WheelRing.InsertIntoWslot | collective/afxdp/timing_wheel.h:199-213 | the entry comes last in its slot, the last bucket is never full, and no bucket is lost |
| WheelObjects.WheelRing.ReapWslot | collective/afxdp/timing_wheel.h:217-236 | the slot's entries become ready in order and its chained buckets go back to the pool |
| WheelObjects.WheelRing.Reap | collective/afxdp/timing_wheel.h:148-156 | turning the ring carries out the reaping of the wheel |
| WheelObjects.WheelRing.Insert | collective/afxdp/timing_wheel.h:170-197 | inserting carries out the insertion of the wheel; a spare bucket is always there |
| PacerObjects.TimelyCtl.PacePacket | collective/afxdp/transport_cc.h:206-217 | the object carries out the pacing of a packet and keeps its count of ready entries in step with the queue |
| PacerObjects.TimelyCtl.TimelyPacePacket | collective/afxdp/transport_cc.h:197-204 | the same at the controller's rate |
| PacerObjects.TimelyCtl.TimelyReadyPackets | collective/afxdp/transport_cc.h:219-252 | the loops carry out handing out and requeueing at the controller's rate; the number reported is that of the packets ready or the budget, whichever is less |
| PacerObjectRuns.PoolIsLarge | collective/afxdp/timing_wheel.h:83 | the pool of buckets is larger than the number of packets the wheel is meant for |
| PacerObjectRuns.StartPacer | collective/afxdp/transport_cc.h:183-188 | a new pacer holds a state a run starts in |
| PacerObjectRuns.SendPacket | collective/afxdp/transport_cc.h:197-217 | pacing takes the objects from one state a run reaches to the next |
| PacerObjectRuns.HandOutPackets | collective/afxdp/transport_cc.h:219-252 | so does handing out, which removes the oldest ready packets, all of them or as many as the budget allows |
| PacerObjectRuns.Drive | collective/afxdp/transport_cc.h:176-252 | so does any sequence of events, and the packets taken in are those handed out and those still held |
| TimerManager.RootIsFirst | collective/efa/util_timer.h:129-134 | the root of an ordered heap expires first |
| TimerManager.SwapKeepsTimers | collective/efa/util_timer.h:183-187 | a swap keeps the position map the exact inverse of the heap |
| TimerManager.TimerManager.HeapifyUp | collective/efa/util_timer.h:140-150 | sifting up restores the order and changes no timer |
| TimerManager.TimerManager.HeapifyDown | collective/efa/util_timer.h:152-173 | sifting down restores the order and changes no timer |
| TimerManager.TimerManager.AdjustHeapNode | collective/efa/util_timer.h:175-181 | a node out of place either way is brought to its place |
| TimerManager.TimerManager.ArmTimer | collective/efa/util_timer.h:33-42 | a timer is added unless the queue pair has one |
| TimerManager.TimerManager.RearmTimer | collective/efa/util_timer.h:58-71 | a timer is added or its expiry moved, keeping its data |
| TimerManager.TimerManager.DisarmTimer | collective/efa/util_timer.h:110-126 | exactly the queue pair's timer is removed |
| TimerManager.TimerManager.CheckExpired | collective/efa/util_timer.h:89-108 | exactly the timers due are returned, once each and in order of expiry; exactly the others stay |
| OneSidedPipeline.Pipeline.FindFreeSlot | p2p/engine.cc:859-863 | with fewer operations in flight than slots there is a free slot |
| OneSidedPipeline.Pipeline.PostWindow | p2p/engine.cc:857-890 | elements are posted in order until the window is full or the transport refuses; nothing is posted after a failure |
| OneSidedPipeline.Pipeline.PollSlots | p2p/engine.cc:903-922 | exactly the slots reported done become free, and a reported failure is remembered |
| OneSidedPipeline.Pipeline.Run | p2p/engine.cc:845-926 | on return nothing is in flight, and success is reported if and only if no pass saw a failed completion or a fatal answer to a post; then every element was posted once, in order, and completed. At every poll the elements posted are those in flight and those retired; until the first failure the window is then full, or everything posted, or the next element refused, and from it on no more are posted |
| OneSidedProgress.PromptTransfer | p2p/engine.cc:845-926 | with a transport that takes every element and has finished every operation at the next poll, a new pipeline succeeds after exactly as many passes as windows are needed |
| RawPipeline.PostSucceedsIff | p2p/engine.cc:971-1011 | for any answer a post succeeds if and only if the answer brings waits and all find a place; otherwise nothing is counted as posted, and waits placed before the places ran out stay |
| RawPipeline.PostKeeps | p2p/engine.cc:971-1011 | an honest answer fills the window or the vector and every wait finds a place; a refusal changes nothing |
| RawPipeline.RawPipeline.PostRawWindow | p2p/engine.cc:971-1011 | the loops carry out the post for any answer, honest or not |
| RawPipeline.PollKeeps | p2p/engine.cc:1020-1030 | with an honest transport retired waits move their elements from in flight to completed and no counter wraps around |
| RawPipeline.PollRetires | p2p/engine.cc:1020-1030 | for any transport a poll frees exactly the places in use and done, leaves the others as they are, and moves what those covered from in flight to completed, modulo 2^64 |
| RawPipeline.RawPipeline.PollWaits | p2p/engine.cc:1020-1030 | for any transport exactly the waits in use and done give up their places, and what they cover is completed, modulo 2^64 |
| RawPipeline.RunKeeps | p2p/engine.cc:955-1035 | with an honest transport success means every element was posted and completed and nothing is in flight; failure comes with room in the window and elements left |
| RawPipeline.DrainsIff | p2p/engine.cc:1013-1016 | every run of an honest transport that ends leaves nothing in flight, if and only if the vector fits into the window or the window is one element |
| RawPipeline.RawPipeline.Run | p2p/engine.cc:955-1035 | the loops carry out the run for any transport |
| RawPipeline.FailureLeavesOperations | p2p/engine.cc:1013-1016 | for every other vector and window there are passes that leave all but one operation of a window in flight |
| RawProgress.PromptRunEnds | p2p/engine.cc:1013-1032 | with a transport that takes every batch and has finished all waits at the next poll, the run is done after exactly as many passes as windows are needed |
| RawProgress.SteadyRunEnds | p2p/engine.cc:1013-1032 | with one that takes every batch and has finished some wait at every poll, the run is done after one pass for each element |
| RawProgress.PromptRun | p2p/engine.cc:955-1035 | the same for a new object |
| WireBytes.NumOfBytes | p2p/engine_api.cc:48-54 | a number that fits is read back from its bytes |
| WireBytes.ByteAt | p2p/engine_api.cc:48-54 | byte i is digit i of the number to the base 256 |
| XferDescs.RoundTrip | p2p/engine_api.cc:36-113 | any list of descriptors with key lists of equal length is read back whole but for the registration ids, whatever follows it |
| XferDescs.TruncationIsNoticed | p2p/engine_api.cc:72-113 | data cut short is refused unless nothing is left or the cut is just before the last inter-process part |
| XferDescs.AcceptedWasWritten | p2p/engine_api.cc:72-113 | whatever bytes are accepted are the printed form of the descriptors read, followed by anything, or lack only the last empty inter-process part |
| XferDescs.Serialize | p2p/engine_api.cc:36-70 | the bytes written fill the buffer of the computed size exactly |
| XferDescs.Deserialize | p2p/engine_api.cc:72-113 | the cursor loop reads what the grammar says and refuses what is short |
| EndpointMetadata.GetMetadata | p2p/engine.cc:459-493 | the buffer holds address, port in network order, one byte of length and that much of the bus id |
| EndpointMetadata.RoundTripIff | p2p/engine.cc:459-548 | printing and parsing gives the metadata back if and only if the bus id has at most 255 bytes and, for IPv6, byte 6 of the address differs from its length plus 12 |
| EndpointMetadata.AcceptedIffPrinted | p2p/engine.cc:496-548 | bytes are accepted if and only if they are printed metadata, and what is read prints as them again |
| EndpointMetadata.AmbiguousIsTakenForShort | p2p/engine.cc:506-513 | the ambiguous IPv6 addresses are read back as IPv4 |

## Left out

- The AF_XDP rings, kernel wakeups, filters and the daemon: sending adds a copy of the packet to the network.
- Byte layout of packet headers, checksums, RSS port probing and round-trip measurement: a packet is its number and payload.
- Sharing of one frame pool between flows and directions: each half has its own share.
- The congestion-control modes other than per-path CUBIC in `transmit_pending_packets`; the Timely modes are modelled by
  the pacer on its own.
- Statistics, logging, locks, memory barriers and thread pinning: each engine step is atomic.
- The DPDK copy of the transport and the bodies of the EFA transport.
- Textual forms of IP addresses: metadata carries the address bytes.
- Memory exhaustion while reserving room for a descriptor list.
- OneSidedPipeline.Pipeline.Run: a transport that refuses for ever keeps the program in its loop; the model runs over any
  finite number of passes and says whether it finished.
- Flow.UcclFlow.TransmitPendingPackets: probe flags on the first packet of a batch are not modelled.
- TimerManager.TimerManager.ArmTimer: the overloads with an explicit timeout differ only in the timeout and are not repeated.
- Timely.Timely.UpdateRate: rounding of floating-point numbers is not modelled.
