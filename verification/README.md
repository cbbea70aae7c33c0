# A verified model of the STREAM protocol endpoints

This project models the two endpoints of an Interledger STREAM connection (Interledger RFC 0029): how a
sender takes money and bytes from several streams, cuts them into packets and reacts to the responses, and how a
receiver checks, holds, shares out and reassembles what arrives. It proves what both sides keep over whole runs,
with a connector in between that may convert amounts at will, reject, delay, repeat, reorder and lose packets and
withhold responses.

| file | what it holds |
|---|---|
| `Long64.dfy`, `MultiplyDivide.dfy` | unsigned 64-bit arithmetic that wraps, and a * b / c without a wide product |
| `Rationals.dfy`, `Decimals.dfy` | exchange rates and slippage; printing a rational with 19 decimals |
| `Congestion.dfy` | the search for the path's maximum packet amount |
| `DataQueues.dfy`, `OffsetSorters.dfy` | the sender's FIFO and the receiver's sorted list, as linked heap objects |
| `ByteStreams.dfy` | the byte stream end to end |
| `HoldLedgers.dfy`, `PacketAssembly.dfy`, `SendingConnections.dfy` | the sender's money: holds, loading a packet, resolving it |
| `IncomingMoney.dfy` | the receiver's money: checks, holds of suspended prepares, sharing out |
| `ReceiveCaps.dfy` | a stream's limit on what it receives: which packets and which overlaps keep it |
| `Conservation.dfy`, `SystemRuns.dfy` | both endpoints and the connector: conservation, the slippage bound, what streams learn, what becomes of a packet |
| `SendLoops.dfy` | the send loop's turns between awaits |
| `Oer.dfy`, `Packets.dfy`, `PacketIO.dfy` | the packet format, its writer, its size predictor and its reader |
| `Arith.dfy`, `Maps.dfy`, `Sequences.dfy`, `Wrappers.dfy` | products and quotients, sums over collections, results and errors |

Classes and methods have the fields, branches and loops of the source. Each is proved against a function of its old
state, and the theorems are about those functions. Where the source does not do what its comments or error messages
say, the model follows the source, a lemma gives an input that shows it, and another states exactly when it is right:

* `multiplyDivide` is exact for every operand pair exactly when the divisor is at most 2^63, and a too large quotient
  is reported for all operands with highest bit k exactly when 2^k * b / c still fits
  (`DivisorLimit`, `SaturationLimit`).
* `checkedSubtract` misses underflows of large operands (`CheckedSubtractExact`), so lowering a send limit while money
  is held can free units that do not exist. With u units sent or held, setting a limit is safe exactly when u <= limit
  or 2u < 2^64 + limit; then held amounts and limits are exact in every run, and after any other accepted limit some
  run spends up to 2^64 above it (`LimitIsSafe`, `LedgerIsSafe`, `LoweredLimitWraps`).
* `checkedMultiply` misses overflows for exactly the factors from 3 to 2^64 - 2 (`CheckedMultiplyMissesOverflow`), and
  doubling 0 counts as an overflow (`CheckedDoubleExact`).
* `addIncomingHold` reports that the total received would overflow, but the hold it stores contains the total received
  as well and never gives that back. Every payment that fits is accepted exactly as long as no prepare was accepted after
  money had been received (`HoldOverRun`, `FittingIsHeld`, `SpuriousOverflow`).
* Frames of one packet, and prepares that overlap, are each checked against the same total received. With total shares
  below 2^63 a packet keeps the receive limits, whatever the receiver and the amount, exactly if no stream has two frames
  with shares; at 2^63 two frames of one share each are safe as well (`CapIsKept`, `TwoFramesBreakTheCap`). With
  overlaps, the limits hold in every order of settling exactly if each held prepare fits on top of what its streams
  received and are owed (`OverlapIsSafe`, `OverlappingRunIsSafe`, `OverlapBreaksTheCap`).
* Data frames reach the sorter before the packet's later checks. What was read stays right in every run (`PrefixSafety`).
  But once nothing is in flight, the receiver can read everything with nothing left over exactly if no packet that
  reached it was rejected or repeated; otherwise a duplicate blocks the stream for ever, in some runs only after what
  was sent so far has been read
  (`Completeness`, `BlockedIffUnclean`, `BlockedForever`, `RejectAfterDeliveryBlocks`).
* With a fixed sender limit the first packets are bounded by 2^64 - 1 and not by that limit (`InitiallyBelowCap`,
  `FirstBelowCap`).
* A right F08 report whose received amount exceeds 2^63 can bring the maximum below what the path takes, even to zero,
  which ends the connection (`ReportLimit`, `RightReportEndsConnection`).
* An F08 for a packet without money makes the sender forget the maximum, or ends the connection where it carries a
  report (`EmptyPacketRejected`).
* A fulfill without data, and a reject after a stream's record was removed, leave money locked for good
  (`HoldsAreExplained`, `OutcomesAreFinal`).
* With a known maximum packet amount below 10 the additive increase is zero and the maximum is never reached
  (`KnownMaximumIsReached`).

## Model

| member | source | states |
|---|---|---|
| `Long64.CheckedAdd` | src/util/long.ts:57-67 | an addition saturates, and says so, exactly when the true sum exceeds 2^64 - 1 |
| `Long64.CheckedSubtractExact` | src/util/long.ts:69-79 | saturating subtraction is right if and only if b <= a or 2b < 2^64 + a; otherwise the wrapped difference is returned unnoticed |
| `Long64.CheckedDoubleExact` | src/util/long.ts:81-91 | the checked product by 2 is right if and only if the operand is not 0 |
| `Long64.CheckedMultiplyMissesOverflow` | src/util/long.ts:81-91 | a factor has an operand whose overflow is missed if and only if it is between 3 and 2^64 - 2 |
| `MultiplyDivide.Compute` | src/util/long.ts:121-155 | the doubling loop computes the function the theorems below are about |
| `MultiplyDivide.ExactWhenFits` | src/util/long.ts:121-155 | for all a, b and 1 <= c <= 2^63 with a quotient that fits, quo * c + rem = a * b and rem < c |
| `MultiplyDivide.DivisorLimit` | src/util/long.ts:127-151 | a divisor is exact for all operands whose quotient fits if and only if it is at most 2^63 |
| `MultiplyDivide.NeverExceeds` | src/util/long.ts:121-155 | for every divisor, quo * c + rem is at most a * b whenever a * b is at most MAX * c: wrapping remainders only lose |
| `MultiplyDivide.NoCarryAtAllOnes` | src/util/long.ts:132-144 | a shifted quotient of 2^64 - 1 never meets a remainder carry, so no wrap of a 64-bit addend hides from the comparison |
| `MultiplyDivide.SaturatesBelow` | src/util/long.ts:141-144 | if the addend of the highest bit fits, the result is exact or (MAX, 0) |
| `MultiplyDivide.SaturationLimit` | src/util/long.ts:141-152 | all operands with highest bit k are exact or saturate if and only if 2^k * b / c fits |
| `MultiplyDivide.SaturatesForSmallRatio` | src/util/long.ts:121-155 | ratios below two are exact or saturate on every operand |
| `MultiplyDivide.CeilMeaning` | src/util/long.ts:102-107 | the ceiling is the least integer whose product with c reaches a * b, and the maximum when none fits |
| `MultiplyDivide.RoundMeaning` | src/util/long.ts:109-119 | rounding is to the nearest integer, ties upwards, for odd and even divisors, and to the maximum from there on |
| `Rationals.ConversionFloors` | src/util/rational.ts:72-74 | a conversion that fits is the floor of rate * amount |
| `Rationals.ClampStaysWithin` | src/connection.ts:1064-1072 | for every rate above one, an amount that passes the clamp has rate * amount at most 2^64 - 1 |
| `Rationals.ClampIsLargest` | src/connection.ts:1064-1072 | with a numerator up to 2^63 the other direction holds too, and the amount converts exactly |
| `Rationals.SourceAmountIsLeast` | src/connection.ts:1082-1084 | the rounded-up reciprocal is the least source amount whose conversion reaches the destination amount |
| `Rationals.MinimumDestinationBound` | src/connection.ts:1172-1178 | the two nested floors lose less than two units against rate * (1 - slippage) * amount |
| `Rationals.MinimumNeverExceeds` | src/connection.ts:1172-1178 | and for every rate and slippage it asks for no more than rate * (1 - slippage) * amount |
| `Rationals.FailuresOfRationals` | src/util/rational.ts:96-108 | the complement exists if and only if the rational is at most one, the reciprocal if and only if it is not zero |
| `Decimals.Power10` | src/util/rational.ts:153-158 | the loop returns 10^n for n up to 19 without wrapping |
| `Decimals.TrimRight` | src/util/rational.ts:144-151 | removes exactly the trailing run of the character |
| `Decimals.TrimKeepsValue` | src/util/rational.ts:114-121 | dropping trailing zeros and a bare point keeps the value denoted |
| `Decimals.ToFixed` | src/util/rational.ts:123-142 | for every denominator, throws if and only if the rounded remainder is too long; up to 2^63 that is if and only if it carries into the whole part |
| `Decimals.NeverRoundsUpToOne` | src/util/rational.ts:130-140 | with 19 digits no denominator lets the remainder round up into the whole part |
| `Decimals.NeverTooLong` | src/util/rational.ts:130-140 | the remainder as it is computed never has more than 19 digits either, for every denominator |
| `Decimals.ToString` | src/util/rational.ts:114-121 | never throws; the text, read back independently, is the whole part and the rounded remainder, without trailing zeros; with a denominator up to 2^63 it is within half of 10^-19 of a / b |
| `Congestion.CongestionController.constructor` | src/util/congestion.ts:28-32 | starts with nothing discovered and the sender's fixed limit |
| `Congestion.CongestionController.SetMaximumAmounts` | src/util/congestion.ts:42-45 | starts again from the amount that test packets found |
| `Congestion.CongestionController.OnFulfill` | src/util/congestion.ts:47-73 | raises the test amount as the event function says, saturating instead of wrapping |
| `Congestion.CongestionController.OnAmountTooLargeError` | src/util/congestion.ts:76-99 | lowers the maximum by the reported ratio, or below the amount sent when there is no usable report |
| `Congestion.CongestionController.OnInsufficientLiquidityError` | src/util/congestion.ts:101-111 | cuts the test amount by a third, not below 2 |
| `Congestion.TestStaysBelowCap` | src/util/congestion.ts:47-111 | once the test amount is at most max(2, maximum packet amount), every event keeps it there, for packets with and without money and whatever a reject reports |
| `Congestion.InitiallyBelowCap` | src/util/congestion.ts:28-45 | a new controller is there if and only if no limit is fixed, and one set from test packets if and only if the amount is within max(2, fixed limit) |
| `Congestion.FirstBelowCap` | src/util/congestion.ts:47-111 | exactly which event first gets it there |
| `Congestion.OnlyFullSizeRaises` | src/util/congestion.ts:47-53 | only a fulfilled packet of the full test amount raises it, never above the cap |
| `Congestion.ReportFindsMaximum` | src/util/congestion.ts:88-92 | a usable report gives the largest amount that the ratio does not scale above the reported maximum |
| `Congestion.NoReportHalves` | src/util/congestion.ts:93-97 | without one the maximum is one less than what was sent, and half of what is left is tried |
| `Congestion.ThirdIsCut` | src/util/congestion.ts:101-111 | a T04 takes a third, rounded down, off the smaller of packet and test amount, and two units stay |
| `Congestion.EmptyPacketRejected` | src/connection.ts:1590-1594 | an F08 for a packet without money forgets the maximum or, with a report, brings it to zero |
| `Congestion.Converges` | src/util/congestion.ts:76-99 | each F08 strictly lowers the discovered maximum and never below the path limit; no other event moves it |
| `Congestion.ReportLimit` | src/util/congestion.ts:88-92 | right reports with a given received amount keep the maximum on the path limit if and only if that amount is at most 2^63 |
| `Congestion.RightReportEndsConnection` | src/connection.ts:1590-1594 | a right report for three units that brings the maximum to zero, where the sender gives up, although the path takes two |
| `Congestion.RejectsAreFinite` | src/util/congestion.ts:42-111 | in every run from the start, data-only packets included, the number of F08 rejects is bounded by how far the maximum fell, which still covers the path limit |
| `Congestion.KnownMaximumIsReached` | src/util/congestion.ts:58-63 | from any state, a known maximum is reached by full-size fulfills if and only if it is at least 10 or reached already, and then 19 suffice |
| `Congestion.UnknownMaximumDoubles` | src/util/congestion.ts:64-70 | while no maximum is known, k full-size fulfills multiply the test amount by 2^k, up to 2^64 - 1 |
| `Congestion.SeventeenSuffice` | src/util/congestion.ts:58-63 | after every run from the start, 17 full-size fulfills reach a known maximum of at least 10 |
| `Congestion.SeventeenAreNeeded` | src/util/congestion.ts:58-111 | after an F08 and a T04 no smaller number does |
| `DataQueues.DataQueue.Push` | src/util/data-queue.ts:25-35 | appends one chunk; head, tail, links and length stay consistent |
| `DataQueues.DataQueue.Shift` | src/util/data-queue.ts:37-49 | removes and returns the first chunk, or nothing |
| `DataQueues.DataQueue.Read` | src/util/data-queue.ts:51-76 | returns the first min(n, byteLength) bytes, leaves the others, and terminates with empty chunks too |
| `DataQueues.DataQueue.ByteLength` | src/util/data-queue.ts:82-90 | counts exactly the bytes that are queued |
| `DataQueues.ReadSplitsBytes` | src/util/data-queue.ts:56-73 | what a read takes and what it leaves are together the bytes that were there |
| `DataQueues.CallbacksFireOnce` | src/util/data-queue.ts:65-72 | what fired and what is pending are all callbacks in push order; a cut chunk does not fire |
| `DataQueues.PoppedExactly` | src/util/data-queue.ts:56-73 | a read pops exactly the chunks that end within the bytes read, as long as bytes are wanted |
| `OffsetSorters.OffsetSorter.Push` | src/util/data-offset-sorter.ts:26-51 | the splice is the insertion behind equal offsets, keeps the list acyclic and sorted, and raises maxOffset |
| `OffsetSorters.OffsetSorter.Read` | src/util/data-offset-sorter.ts:53-61 | pops the head exactly if it starts at the read offset |
| `OffsetSorters.OffsetSorter.ByteLength` | src/util/data-offset-sorter.ts:64-74 | is the number of bytes repeated reads return, and readOffset + byteLength never exceeds maxOffset |
| `OffsetSorters.InsertSorts` | src/util/data-offset-sorter.ts:31-50 | insertion keeps the list sorted by offset |
| `OffsetSorters.InsertAdds` | src/util/data-offset-sorter.ts:31-50 | insertion loses and duplicates nothing |
| `OffsetSorters.InsertIsStable` | src/util/data-offset-sorter.ts:33-49 | equal offsets stay in arrival order |
| `ByteStreams.OutgoingData.Write` | src/stream.ts:536-540 | appends to the bytes ever written; the queue stays exactly what was not cut |
| `ByteStreams.OutgoingData.GetAvailableDataToSend` | src/stream.ts:593-617 | returns the oldest rejected frame, split to size, or the next bytes within the granted window, with their offset |
| `ByteStreams.TakeMeaning` | src/stream.ts:593-617 | the frame has at most the wanted size; the oldest rejected one goes first, whole or its front; else as many new bytes as size, window and queue allow, ending within the window |
| `ByteStreams.OutgoingData.RaiseRemoteMaxOffset` | src/connection.ts:858-872 | the window only grows |
| `ByteStreams.OutgoingData.ResendOutgoingData` | src/stream.ts:623-626 | queues a rejected frame behind the earlier ones |
| `ByteStreams.OutgoingData.GetOutgoingOffsets` | src/stream.ts:642-647 | reports the cut offset and the number of bytes ever written |
| `ByteStreams.OutgoingData.IsDataBlocked` | src/stream.ts:632-636 | reports the end of the data exactly if it lies beyond the granted window |
| `ByteStreams.Refill` | src/stream.ts:564-579 | bytes moved to the application and bytes still readable are the bytes that were readable; it stops only when satisfied or empty |
| `ByteStreams.StepIsSafe` | src/connection.ts:1132-1144 | every step keeps each frame anywhere a true slice of what was written |
| `ByteStreams.PrefixSafety` | src/util/data-offset-sorter.ts:53-61 | in every run the bytes handed out are exactly the first readOffset bytes written |
| `ByteStreams.EverythingWritten` | src/stream.ts:536-540 | in every run the sender works with all bytes written, in order |
| `ByteStreams.WindowIsKept` | src/stream.ts:609-611 | in every run no byte is cut or sent beyond the largest window granted |
| `ByteStreams.EverythingWasSent` | src/connection.ts:1132-1144 | whatever is on its way, arrived, acknowledged or in the sorter was sent |
| `ByteStreams.RejectedFirstSentFirst` | src/stream.ts:593-626 | in every run rejected bytes are sent again in the order of their rejection |
| `ByteStreams.SenderPartition` | src/connection.ts:1560-1573 | every byte ever cut is in exactly one retry entry, frame in flight or acknowledged frame |
| `ByteStreams.DrainsIffCoveredOnce` | src/util/data-offset-sorter.ts:53-61 | the sorter reads to the limit and empties if and only if its pieces contain each byte in between exactly once and no other |
| `ByteStreams.Completeness` | src/connection.ts:1560-1573 | with nothing in flight or waiting, reading ends at the last byte cut and empties the sorter if and only if no packet that reached the receiver was rejected or repeated |
| `ByteStreams.UncleanLeavesSurplus` | src/connection.ts:604-624 | every other run leaves a byte that reached the receiver too often |
| `ByteStreams.BlockedIffUnclean` | src/util/data-offset-sorter.ts:53-61 | and in every other run reading comes to a stop in front of a piece below the read offset |
| `ByteStreams.BlockedForever` | src/util/data-offset-sorter.ts:55 | from such a state on nothing is ever read beyond what could be read already, whatever happens |
| `ByteStreams.StuckForever` | src/util/data-offset-sorter.ts:55 | with a piece below the read offset at the head, nothing at all is read again |
| `ByteStreams.RejectAfterDeliveryBlocks` | src/connection.ts:604-624 | a run in which data is pushed before its packet is rejected ends in that state |
| `HoldLedgers.MoneyStream.SetLimit` | src/stream.ts:219-233 | refuses a closed stream and a limit below what was sent, else sets it |
| `HoldLedgers.MoneyStream.HoldOutgoing` | src/stream.ts:419-428 | holds the smaller of what is available and what is asked, if positive |
| `HoldLedgers.MoneyStream.ExecuteHold` | src/stream.ts:435-450 | moves a hold to the total sent; an unknown id changes nothing |
| `HoldLedgers.MoneyStream.CancelHold` | src/stream.ts:457-465 | releases a hold; an unknown id changes nothing |
| `HoldLedgers.AvailableExactly` | src/stream.ts:403-412 | the amount available is the limit minus everything sent and held if and only if both subtractions are in their exact range |
| `HoldLedgers.StepIsSound` | src/stream.ts:403-465 | with guarded limits every operation keeps held = sum of holds and sent + held <= largest limit, with no wrap |
| `HoldLedgers.LimitIsSafe` | src/stream.ts:219-232 | an accepted limit keeps that, whatever follows without a new limit, if and only if sent + held is at most the limit or less than half of 2^64 + limit |
| `HoldLedgers.UnguardedOverspends` | src/stream.ts:403-465 | after any other accepted limit, paying the holds and reserving the rest reaches sent + held = 2^64 + limit |
| `HoldLedgers.LedgerIsSafe` | src/stream.ts:219-232 | over every run from a new stream: the books stay exact at every moment if and only if every accepted limit was guarded |
| `HoldLedgers.SmallLimitsAreGuarded` | src/stream.ts:219-232 | limits below 2^63 are guarded in every run |
| `HoldLedgers.ExcessWasHeld` | src/stream.ts:219-233 | after an accepted limit a stream exceeds it at most by what was held at the time, because no limit below the total sent is accepted |
| `HoldLedgers.ClosedSpendsNothingNew` | src/stream.ts:403-406 | a closed stream takes no new limit, and what it has sent and holds never grows |
| `HoldLedgers.HoldThenCancel` | src/stream.ts:419-465 | cancelling a hold undoes it |
| `HoldLedgers.HoldThenExecute` | src/stream.ts:419-450 | executing it moves the smaller of what was asked and what is left to the total sent |
| `HoldLedgers.LoweredLimitWraps` | src/stream.ts:403-412 | a run of four calls that wraps the held amount to zero |
| `PacketAssembly.LoadMoney` | src/connection.ts:1064-1119 | the loop gives each stream its share, holds it under the sequence number, and returns the matching frames and their sum, which is at most the congestion test amount |
| `PacketAssembly.PacketLimitIs` | src/connection.ts:1065-1072 | that limit is the congestion test amount where its converted value fits in 64 bits, and otherwise the largest amount for which that holds |
| `PacketAssembly.SharesStayWithin` | src/connection.ts:1076-1099 | the shares of a packet together stay within its limit |
| `PacketAssembly.SharesAreMaximal` | src/connection.ts:1081-1088 | each stream gives the least of what it has and what its receiver can take, or the packet is full |
| `PacketAssembly.FramesCarryShares` | src/connection.ts:1092-1099 | the money frames add up to the packet's amount |
| `PacketAssembly.FramesNameStreams` | src/connection.ts:1092-1094 | each frame names the stream that gave its shares |
| `PacketAssembly.HoldsMatchAmount` | src/connection.ts:1092-1099 | the holds under the packet's sequence number add up to the packet's amount |
| `PacketAssembly.LoadedAmountConverts` | src/connection.ts:1065-1072 | whatever is loaded stays within 64 bits at the rate, for every rate; with a denominator up to 2^63 it converts exactly |
| `PacketAssembly.MaxSourceReachesLimit` | src/connection.ts:1082-1088 | the receiver's remaining limit is reached by an amount if and only if it is at least maxSourceAmount |
| `PacketAssembly.NothingLeftToTake` | src/connection.ts:1082-1088 | a receiver above its limit is given nothing, as long as the comparison sees it |
| `SendingConnections.SendingConnection.GetNextPacketSequence` | src/connection.ts:1748-1757 | numbers strictly grow, and from 2^31 on none is handed out |
| `SendingConnections.SendingConnection.AddTotalSent` | src/connection.ts:1722-1733 | adds exactly, or refuses on overflow and changes nothing |
| `SendingConnections.SendingConnection.AddTotalDelivered` | src/connection.ts:1735-1746 | adds exactly, or refuses on overflow and changes nothing |
| `SendingConnections.SendingConnection.OnFulfilled` | src/connection.ts:1206-1213 | executes the hold of every stream in the packet, then adds to the delivered total and, if that fits, to the sent total |
| `SendingConnections.SendingConnection.UndoRejectedPacket` | src/connection.ts:1560-1569 | looks up the stream of every money frame, releases the packet's hold on those still on record, and moves no total |
| `IncomingMoney.ShareOfPacket` | src/connection.ts:648-651 | one frame's part is at most its share and at most the packet, for every total; up to 2^63 it is the floor of its share |
| `IncomingMoney.ProportionalSplit` | src/connection.ts:634-656 | the parts sum to at most the packet, for every total; up to 2^63 fewer units are left than there are frames |
| `IncomingMoney.SplitLimit` | src/connection.ts:634-656 | a total of shares splits all packets that way if and only if it is at most 2^63 |
| `IncomingMoney.HoldIncomingStores` | src/connection.ts:1695-1708 | the stored hold contains the total received, and is refused exactly if a positive amount does not fit on top of both |
| `IncomingMoney.AllowanceIsRoom` | src/connection.ts:658-660 | a stream may receive what is left of its limit and one percent of that more, rounded up and at most 2^64 - 1, and nothing above its limit |
| `IncomingMoney.AcceptedIff` | src/connection.ts:620-680 | a prepare is accepted if and only if it brings the minimum, its shares have a total, each frame names an open stream with room for its part, and the connection-wide check passes |
| `IncomingMoney.RefusedBecause` | src/connection.ts:620-680 | otherwise the first of these that fails decides the error |
| `IncomingMoney.FirstFailure` | src/connection.ts:644-678 | among the frames it is the first that does not pass |
| `IncomingMoney.IncomingConnection.AddIncomingHold` | src/connection.ts:1695-1708 | stores the hold or leaves it unchanged |
| `IncomingMoney.IncomingConnection.BeginPrepare` | src/connection.ts:620-680 | the first turn: the same error in the same order, or the amounts per stream and the hold |
| `IncomingMoney.IncomingConnection.CheckAndSplit` | src/connection.ts:644-678 | the loop over the money frames finds the first failing check, or all parts |
| `IncomingMoney.IncomingConnection.FulfillPrepare` | src/connection.ts:692-740 | the second turn: adds each part to its stream, releases the hold and adds to the total |
| `IncomingMoney.IncomingConnection.DeclinePrepare` | src/connection.ts:685-689 | the second turn on refusal: releases the hold only |
| `IncomingMoney.StepIsSound` | src/connection.ts:683-740 | every turn keeps the hold above everything pending and the total exact |
| `IncomingMoney.IncomingIsSound` | src/connection.ts:1695-1720 | under every interleaving the total received is the exact sum of fulfilled amounts, has room for all that is pending, and no removal underflows |
| `IncomingMoney.StreamsAreCovered` | src/stream.ts:391-396 | in every run, whatever shares the peer chooses, the streams together never show more than the connection received |
| `IncomingMoney.NoStreamSaturates` | src/stream.ts:391-396 | in every run a stream has room for all that is pending for it, and settling a prepare adds exactly its part |
| `IncomingMoney.HoldOverRun` | src/connection.ts:1695-1714 | over every run the hold is what is pending plus, for each prepare ever accepted, the total received at that time |
| `IncomingMoney.RefusedForOverflow` | src/connection.ts:1695-1708 | a payment is refused exactly if it does not fit on top of total, pending and carried amounts |
| `IncomingMoney.FittingIsHeld` | src/connection.ts:1695-1708 | after every run, all payments that fit are accepted if and only if no prepare was accepted after money had been received, or nothing fits any more |
| `IncomingMoney.SpuriousOverflow` | src/connection.ts:1695-1708 | a run of 2^62 units and three empty packets, after which one more unit is refused |
| `ReceiveCaps.HarmlessPacketStaysWithinCap` | src/connection.ts:658-669 | a packet accepted in one turn keeps every stream within its limit plus one percent if each stream has one frame with shares, or two of one share at a total of 2^63 |
| `ReceiveCaps.AtomicPacketStaysWithinCap` | src/connection.ts:658-669 | with one frame with shares per stream that holds for every total |
| `ReceiveCaps.ReceiveCap` | src/stream.ts:246-262 | that holds over whole runs, with limits raised and streams opened and closed in between |
| `ReceiveCaps.CapIsKept` | src/connection.ts:644-669 | a list of frames with total shares up to 2^63 keeps the limits for every receiver and amount if and only if it is of that kind; below 2^63, if and only if no stream has two frames with shares |
| `ReceiveCaps.TwoFramesBreakTheCap` | src/connection.ts:644-669 | two frames for one stream deliver twice its limit |
| `ReceiveCaps.OverlapIsSafe` | src/connection.ts:683-697 | every order of settling or declining what is pending keeps the limits if and only if each stream has room for all that is owed to it |
| `ReceiveCaps.HoldingIsSafe` | src/connection.ts:644-680 | holding one more prepare keeps that if and only if its parts fit on top of what is received and owed |
| `ReceiveCaps.OverlappingRunIsSafe` | src/connection.ts:644-697 | over every run with overlapping prepares: the limits hold at every moment and in every order of settling if and only if each held prepare had room |
| `ReceiveCaps.OverlapBreaksTheCap` | src/connection.ts:683-697 | a run with two overlapping prepares that delivers twice the limit |
| `ReceiveCaps.LimitsOnlyRise` | src/stream.ts:246-262 | exactly which event changes a limit, and that only closing closes |
| `ReceiveCaps.NothingWithoutLimit` | src/stream.ts:91-107 | in every run no stream receives anything before a limit is raised |
| `ReceiveCaps.ClosedGetsNothingNew` | src/connection.ts:671-678 | in every run a closed stream gets at most what is pending for it already |
| `ReceiveCaps.PaymentIsTaken` | src/connection.ts:644-740 | a payment for which there is room is accepted, and the stream has it after settling |
| `ReceiveCaps.NewStreamTakesPayment` | src/stream.ts:246-262 | so does a stream that was opened and given a limit |
| `IncomingMoney.ReceivedGrows` | src/stream.ts:391-396 | what a stream has received never shrinks |
| `Conservation.StepConserves` | src/connection.ts:1510-1529 | each step of either endpoint or the connector keeps delivered + unreported = received |
| `Conservation.StepIsBalanced` | src/connection.ts:1206-1212 | each step, with any limit that is accepted, keeps the streams holding exactly what packets lock, and the connection's total the sum over its streams |
| `Conservation.StepIsInformed` | src/connection.ts:821-832 | each step keeps every stream's knowledge of its peer at most what the peer received |
| `Conservation.StepKeepsRate` | src/connection.ts:620-624 | each step keeps the delivered amount at most two units per packet below the agreed minimum |
| `Conservation.MoneyIsConserved` | src/connection.ts:1180-1218 | in every run without a sender overflow: totalDelivered plus fulfilled amounts in flight or lost is the peer's totalReceived, totalSent is the sum over all streams, and no stream overestimates its peer |
| `Conservation.SlippageBound` | src/connection.ts:1172-1178 | with denominators up to 2^63, in every run rate * (1 - slippage) * totalSent <= totalDelivered + 2 per fulfilled packet |
| `Conservation.OpenPacketsAreHeld` | src/connection.ts:1748-1757 | in every run the streams hold exactly the shares of each packet without an outcome, and no sequence number comes again |
| `Conservation.HoldsAreExplained` | src/connection.ts:1526-1569 | in every run a stream holds a packet's share if and only if the packet has no outcome, was fulfilled without data, or was rejected after the stream's record had been removed |
| `Conservation.SpendsWhatIsLeft` | src/stream.ts:403-412 | in every run with guarded limits each stream's held amount is the sum of its holds and it finds exactly what its limit leaves |
| `SystemRuns.KnowsWhatItWasTold` | src/connection.ts:821-832 | in every run a stream knows the largest received amount it was told, and the largest limit since the last one of 2^64 - 1, which is also the initial one |
| `SystemRuns.TellThenLearn` | src/connection.ts:713-714 | right after a message was composed and read, it knows exactly what its peer has received |
| `SystemRuns.NoticesStay` | src/connection.ts:713-714 | a message that was composed can be read at any later time |
| `SystemRuns.LedgerFollowsEvents` | src/stream.ts:403-465 | in every run each ledger is what a new one becomes under its stream's limits, shares and outcomes |
| `SystemRuns.PeerFollowsEvents` | src/connection.ts:532-746 | and the receiver is what arriving packets, decisions and its own calls make of it |
| `SystemRuns.RunIsFair` | src/connection.ts:1172-1178 | in every run no packet asks for more than rate * (1 - slippage) * amount |
| `SystemRuns.PacketGoesThrough` | src/connection.ts:1180-1213 | a packet that is accepted, settled and answered is counted in full on both sides |
| `SystemRuns.StreamsGetTheirParts` | src/connection.ts:648-656 | and each stream of the receiver has got the floor of its share of what came in |
| `SystemRuns.PacketIsDeclined` | src/connection.ts:685-689 | a packet that is declined and rejected moves no money |
| `SystemRuns.PacketIsLost` | src/connection.ts:1526-1529 | after a fulfill without data the receiver has the money and the sender does not count it |
| `SystemRuns.LoadThenReject` | src/connection.ts:1560-1569 | loading a packet and rejecting it leaves every stream as it was |
| `SystemRuns.OutcomesAreFinal` | src/connection.ts:1526-1529 | an outcome is final, so money locked without one stays locked |
| `SystemRuns.AnswersAreCounted` | src/connection.ts:1206-1212 | the packets counted in the slippage bound are those that were answered |
| `SystemRuns.NumbersHaveNoGaps` | src/connection.ts:1748-1757 | packets are numbered from one on without gaps |
| `SystemRuns.OnlyClosingCloses` | src/connection.ts:1656-1662 | in every run a stream stops sending exactly if it was closed |
| `SystemRuns.ClosedGivesNothing` | src/connection.ts:1074-1079 | and then gives nothing to later packets |
| `SendLoops.StepIsSound` | src/connection.ts:979-1013 | after every turn a wish is still going to be seen by the loop test or a snapshot is coming |
| `SendLoops.WishStays` | src/connection.ts:980-986 | only a snapshot satisfies a wish |
| `SendLoops.NoLostWakeUp` | src/connection.ts:979-1024 | in every interleaving a call to a running loop is followed by a frame snapshot before the loop stops, unless the remote closed or the loop threw after the call |
| `SendLoops.NoLostWake` | src/connection.ts:979-986 | the same for a wake in a response |
| `SendLoops.NothingMoreToSend` | src/connection.ts:1154-1170 | from every reachable state, after an empty or control-only packet or a close by the remote side, without a call or wake in between, the loop has stopped after its next test |
| `SendLoops.BusyLoopGoesOn` | src/connection.ts:1000-1012 | as long as nothing takes the wish to send away the loop goes on |
| `SendLoops.SnapshotsNeedSetup` | src/connection.ts:1000-1010 | no packet is put together before the rate is set up and the address known |
| `SendLoops.CallStarts` | src/connection.ts:987-999 | a call starts a stopped loop if and only if the remote side has not closed and its address is known |
| `SendLoops.NothingAfterClose` | src/connection.ts:987-991 | once the remote side has closed, a stopped loop is never started again |
| `SendLoops.RunRecords` | src/connection.ts:979-1024 | over every run: set up, address known and remotely closed exactly if such a step was in it |
| `Oer.VarUIntRoundTrip` | src/packet.ts:213-214 | every 64-bit number is read back by the plain and by the saturating reader |
| `Oer.LongNumbersSaturate` | src/packet.ts:559-568 | a number of more than eight bytes reads as the maximum where the plain reader fails |
| `Oer.CountsAreSmaller` | src/packet.ts:118 | counts above 2^53 - 1 are refused |
| `Oer.OddFormsAreRefused` | src/packet.ts:559-568 | a length of unknown form and a number without octets are refused |
| `Packets.BuildInvertsFields` | src/packet.ts:228-517 | for all fifteen frame types the reader expects the written fields in the written order |
| `Packets.ItemRoundTrip` | src/packet.ts:519-557 | a known frame is read back and an unknown one is skipped, with nothing else consumed |
| `Packets.UnknownFramesAreSkipped` | src/packet.ts:121-127 | unknown frames anywhere and padding at the end make no difference to what is read |
| `Packets.PacketRoundTrip` | src/packet.ts:109-128 | deserializing a serialized packet with any padding returns it |
| `Packets.SerializeIsInjective` | src/packet.ts:147-154 | different packets have different bytes |
| `Packets.TruncatedIsRefused` | src/packet.ts:109-128 | every proper prefix of a serialized packet is refused |
| `Packets.OtherVersionsAreRefused` | src/packet.ts:110-114 | bytes with another version are refused |
| `Packets.LargeLimitsSaturate` | src/packet.ts:378-423 | receive and send limits that exceed 64 bits read as 2^64 - 1 |
| `Packets.LargeSharesAreRefused` | src/packet.ts:360-377 | money whose shares exceed 64 bits is refused |
| `Packets.ConnectionFrames` | src/packet.ts:228-338 | the type code and the bytes of each connection frame with small numbers |
| `Packets.MoneyFrames` | src/packet.ts:360-423 | those of money frames, and of receipts |
| `Packets.DataFrames` | src/packet.ts:424-491 | those of data frames, and of closing a stream |
| `Packets.SmallPacket` | src/packet.ts:156-170 | the bytes of a packet's header |
| `PacketIO.Writer.WriteFrame` | src/packet.ts:195-201 | the type, the predicted length and the contents, which have that length |
| `PacketIO.Writer.WritePacket` | src/packet.ts:156-170 | the loop writes the header and all frames in order |
| `PacketIO.ByteLength` | src/packet.ts:172-176 | the predicted length is the serialized length plus 28 |
| `PacketIO.Reader.VarOctetString` | src/packet.ts:519-521 | the cursor moves past the length prefix and exactly that many octets, or reading fails |
| `PacketIO.Reader.SaturatingVarUInt` | src/packet.ts:559-568 | reads as the saturating function says |
| `PacketIO.ParseFrame` | src/packet.ts:519-557 | reads one frame at the cursor, or skips an unknown one |
| `PacketIO.DeserializeUnencrypted` | src/packet.ts:109-128 | the cursor loop returns the packet, or the error of the first part that fails |

## Left out

- Encryption, hashing, fulfillments and random bytes: decrypting an encrypted packet is taken to return it, and a fulfillment that reaches the sender to be valid.
- Plugins, timers, expiry, idle timeout, retry delays and logging: a response is a fulfill with data, a fulfill without, or a reject.
- Node's Duplex internals, events, user handlers that call back into a connection, and high-water marks; the check that ends a connection for exceeding flow control depends on them.
- The server, the pool, address tokens and receipts: wiring and a fixed layout.
- The conversion of a floating-point number to a rational, and the product of two rationals, which is only displayed: rates, slippage and the allowance of 101/100 are given fractions.
- Finding the exchange rate with test packets: the rate, and the amount it sets in the congestion controller, are parameters.
- A rate of zero when loading money: `reciprocal` refuses it (`Reciprocal` models that error), so `LoadMoney` and the system in `Conservation.dfy` start from a positive rate.
- `Conservation.SlippageBound`: only for denominators up to 2^63, because above that the division is not exact (`DivisorLimit`).
- `Decimals.ToString`: how close the decimal is, only for denominators up to 2^63, for the same reason.
- `ReceiveCaps.CapIsKept`: for total shares above 2^63, where the division is not exact, one frame with shares per stream is shown to be enough but not to be necessary.
- The whole-packet size limit: blocked frames are not charged to it in the source, so no bound holds.
- Connection-level byte windows, stream and connection close frames, and the limits on stream ids.
- `countDigits`, `minLongs` and parsing of numbers from strings: used while finding the rate and on user input only.
- oer-utils is not part of this model: its encodings follow section 8.6 of ITU-T X.696; a length prefix that is longer than needed is accepted when reading.
- Texts are byte sequences; UTF-8 is not modelled.
- `OffsetSorters.OffsetSorter.Push`: the walk stops at the last entry whose offset is not larger and links there, one statement for the two exits of the source's loop.
- A connector that pays one packet to the receiver twice: in `Conservation.dfy` a packet's money arrives at most once, while in `ByteStreams.dfy` its data may arrive any number of times.
