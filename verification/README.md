# predictfun-cpp: verified core

A Dafny model of the parts of predictfun-cpp, a C++ trading client, whose mistakes cost money: the durable order
session, the pricing arithmetic, the wire encoders, the private wallet stream and the request limiter. The proofs are
about every input and every run, not about examples.

## What is proved

**Durable order session** (`Lifecycle`, `Transitions`, `JournalCodec`, `Checksum`, `ChecksumTheory`, `Journal`,
`JournalFormat`, `PersistentTracker`, `Durability`, `Trading`, `Session`, `SessionSafety`, `Agreement`, `OrderOutcomes`,
`SessionWitnesses`, `Reconciliation`). One state machine puts submissions, transport callbacks, venue events, crashes at
any byte of any write and restarts in any order. In every run each order hash causes at most one create POST, and the
journal already holds the hash when it is sent. What a submission, the answer to it and every later report leave of the
order, in memory and in the file, is stated field by field, and an order in doubt stays flagged until something settles
it. The file and the published orders differ exactly at the hashes of a ledger that only refused batches feed, and
nowhere in a run without one. Replay is decided for every file there may be. After any crash each order recovers to its
old or its new value; damage to up to four consecutive payload bytes or to a checksum is detected; a restart succeeds
whenever the venue reported sane amounts; a rejection is recorded only when the order was never sent or was explicitly
refused.

**Prices and quantities** (`ExactDecimals`, `FixedDecimals`, `DecimalGrammar`, `BookLevels`, `BookConservation`,
`Ladder`, `Liquidity`, `LiquidityProperties`, `QuoteOptimality`, `OrderBook`, `BookQuotes`, `OrderAmounts`,
`AmountProperties`, `ShareAmounts`). Decimal text is read, compared and converted exactly. Level normalisation depends
only on the multiset of levels and conserves the shares on offer. Market quotes are optimal against every other
allocation, for buys exactly under a stated condition, and are stated in the ticks and decimals of the book; a round trip
on an uncrossed book never gains; and the amounts put into an order are given exactly by the fill, its last price and the
slippage.

**Wire encoders** (`Hex`, `Rlp`, `Transactions`, `Abi`, `CancelOrders`). Independent strict readers invert the RLP
list of a legacy transaction and the nested offsets of `cancelOrders` calldata; RLP reading and writing are inverse in
both directions.

**Private stream** (`PrivateStream`, `StreamSafety`, `StreamReactions`, `StreamDelivery`). With late callbacks of a
cancelled channel as real steps, an event marked as reconciled is preceded by an unbroken chain from the connect of its
own generation to the caller's mark, the consumer is told before it sees one, and the queue keeps its bound. The client
is always in one of six phases, and which callbacks end a session, bring it forward or dial again is stated exactly.

**Limiter** (`RateLimiter.dfy`, module `RateLimiting`; `LimiterLaws`). For any calls at any times, no interval holds more
grants of a bucket than its capacity plus the inflow, so no minute more than twice the limit, and no grant precedes a
cooldown. When each reservation of a burst is granted is given exactly.

`Foundations` and `Numerals` hold shared vocabulary and positional notation.

## What the code does that one might not expect

- `SessionWitnesses.RefusedBatchLeavesTrace`: when a record in the middle of a whole-tracker append is too large, the
  records before it stay in the file although the transition is refused. `Durability.FailedAppend` and
  `Agreement.LedgerIsExact` say exactly where file and memory then differ, and `Agreement.RepairedByNext` that the next
  whole-tracker append that succeeds, or a restart, repairs it.
- `LiquidityProperties.DustBreaksOptimality`: an ask level worth less than one wei is skipped, so a buy quote can be
  beaten by an allocation that uses it. `QuoteOptimality.OptimalIff` says exactly when it cannot;
  `OptimalUnlessDustIsCheaper` that only dust below the last price used can do harm; `AlwaysOptimalIff` which ladders
  are safe for every value, from their levels alone.
- `StreamSafety.FaultIff` and `LateHeartbeatFaults`: a heartbeat frame that was already read when a reconnect is
  scheduled is answered through a null channel. The lemma shows that this is the only handler that does so.
- `StreamSafety.QueueBoundIff`: the queue bound holds in every run exactly when it is at least one; a bound of zero still
  lets one state event in.
- `StreamDelivery.OverflowHidesLive`: when the queue is full as a session goes live, the consumer is told that it is
  degraded and then receives reconciled data. `StreamDelivery.ConsumerIsTold` says that it is told live exactly when the
  queue had room at the mark that took effect.
- `DecimalGrammar.ZeroOverflows`: a text can be refused although its value is representable; `0e19` is reported as an
  overflow. `DecimalGrammar.ParseDecides` says exactly which texts are parsed.
- `AmountProperties.ProcessDecides`: a fill also fails on an invalid level that it does not use, if it is the one right
  behind the last level it does use.
- `SessionWitnesses.GenerationWraps`: the generation a restart picks wraps at 64 bits; `Durability.RestartQuarantines`
  says that it exceeds every recovered one exactly when no record holds the largest value.

## Model

| member | source | states |
|---|---|---|
| `ExactDecimals.Parse` | src/exact_number.cpp:21-45 | the one-pass scanner accepts exactly the plain decimals: optional minus, digits with at most one point, not at the end |
| `ExactDecimals.Normalize` | src/lifecycle.cpp:42-60 | the in-place trimming computes the normal form: sign, integer without leading zeros, fraction without trailing zeros |
| `ExactDecimals.MagnitudeCompare` | src/lifecycle.cpp:62-75 | the digit loop computes the order of two normal forms |
| `ExactDecimals.CompareDecimals` | src/lifecycle.cpp:77-84 | the comparison method computes `Compare`, which `CompareIsNumeric` ties to rationals |
| `ExactDecimals.NormalKeepsMagnitude` | src/lifecycle.cpp:42-60 | normalising keeps the magnitude at every common scale |
| `ExactDecimals.CompareIsNumeric` | src/lifecycle.cpp:62-84 | comparing two accepted texts is the sign of the difference of their rational values, with negative zero equal to zero |
| `ExactDecimals.SignTests` | src/lifecycle.cpp:86-88 | the zero and negative tests are sign tests on the value |
| `Lifecycle.OrderTracker.BeginSubmission` | src/lifecycle.cpp:105-128 | a new, valid hash with a positive amount is filed as pending; the three refusals in order leave the map alone |
| `Lifecycle.OrderTracker.ApplyCreateOutcome` | src/lifecycle.cpp:130-152 | ambiguous outcomes flag the order, acknowledged ones need a receipt for the same hash |
| `Lifecycle.OrderTracker.MarkSubmissionRejected` | src/lifecycle.cpp:154-170 | only a pending submission becomes rejected; a second call changes nothing |
| `Lifecycle.OrderTracker.DeriveFillState` | src/lifecycle.cpp:90-96 | a nonzero fill makes the order filled or partially filled and changes nothing else |
| `Lifecycle.OrderTracker.ApplyRestOrder` | src/lifecycle.cpp:172-210 | the record of one order after a REST record |
| `Lifecycle.OrderTracker.ApplyWalletEvent` | src/lifecycle.cpp:212-254 | the record of one order after a wallet event |
| `Lifecycle.OrderTracker.MarkBookRemoved` | src/lifecycle.cpp:256-265 | a removal from the book flags the order and nothing else in the map |
| `Lifecycle.OrderTracker.RequireReconciliation` | src/lifecycle.cpp:267-275 | the loop flags every unfinished order with the generation and leaves finished ones |
| `Lifecycle.OrderTracker.Reconcile` | src/lifecycle.cpp:277-299 | both loops give the map in which the last record per hash decides, with the report's counts and unresolved set |
| `Lifecycle.OrderTracker.Restore` | src/lifecycle.cpp:322-343 | succeeds exactly on distinct, restorable records and then files exactly those |
| `Lifecycle.LastRecord` | src/lifecycle.cpp:282-290 | the deciding record of a snapshot belongs to the hash and is in the snapshot; none means the hash is absent |
| `Lifecycle.RestOverwrites` | src/lifecycle.cpp:277-290 | a REST record overwrites everything an earlier record of the same order wrote |
| `Transitions.ApplyShape` | src/lifecycle.cpp:105-299 | every transition touches only its target, keeps orders under their own hashes, and only a submission adds a hash |
| `Transitions.RefusalsAre` | src/lifecycle.cpp:105-265 | exactly which submissions are refused, and the code of every refusal of the tracker |
| `Transitions.HashesAre` | src/lifecycle.cpp:29-36 | a hash is `0x` and 64 hexadecimal digits of either case |
| `Transitions.RestorableIs` | src/lifecycle.cpp:322-343 | a record is restored exactly for a valid hash, a positive amount and a non-negative fill, as numbers |
| `Transitions.OutcomeConcludes` | src/lifecycle.cpp:130-152 | an outcome is taken exactly if it is ambiguous or its receipt names the order; ambiguous leaves the order uncertain and flagged, acknowledged leaves it accepted under the receipt's id with its flag, amounts and timestamp unchanged |
| `Transitions.RejectionConcludes` | src/lifecycle.cpp:154-170 | a rejection is taken exactly while pending or already rejected, and ends the order unflagged |
| `Transitions.RemovalConcludes` | src/lifecycle.cpp:256-265 | a book removal leaves the order flagged and unfinished, with its id, amounts and timestamp |
| `Transitions.ObservedAre` | src/lifecycle.cpp:277-299 | the observed count is the number of records of tracked hashes, repeated ones included |
| `Transitions.FlagRulePreserved` | src/lifecycle.cpp:130-299 | every transition keeps: finished orders are unflagged, ambiguous, unknown and book-removed ones are flagged |
| `Transitions.RestConcludes` | src/lifecycle.cpp:172-210 | the state each REST status leads to, as an if-and-only-if per state: filled when matched or open with a fill that numerically reaches the amount, rejected and never cancelled when invalidated; the flag exactly for an unknown status; every other field |
| `Transitions.WalletConcludes` | src/lifecycle.cpp:212-254 | the same for each wallet event, with the fields it sets and the ones it leaves |
| `Transitions.RestorablePreserved` | src/lifecycle.cpp:322-343 | positive amounts and non-negative fills keep every order restorable |
| `Transitions.DerivedStateIsNumeric` | src/lifecycle.cpp:90-96 | for a positive fill the derived state is filled exactly when fill >= amount as rationals |
| `Transitions.ReconcileIsIdempotent` | src/lifecycle.cpp:277-299 | reconciling twice against one snapshot changes nothing more and reports the same unresolved set |
| `Transitions.AbsentOrdersKept` | src/lifecycle.cpp:292-298 | an absent order keeps state and amounts; it is unresolved exactly when unfinished, and then flagged |
| `Transitions.CompleteReconciliationClearsFlags` | src/lifecycle.cpp:277-299 | no flag is left exactly when the report is complete and every deciding status is known |
| `JournalCodec.AppendLittleEndian` | src/lifecycle_journal.cpp:36-44 | the shifting loop appends the little-endian bytes of the number |
| `JournalCodec.ReadLittleEndian` | src/lifecycle_journal.cpp:46-57 | the byte loop reads the little-endian number at the cursor or fails when bytes are missing |
| `JournalCodec.AppendText` | src/lifecycle_journal.cpp:59-65 | a length-prefixed string; refused exactly when the length needs more than 32 bits |
| `JournalCodec.ReadTextAt` | src/lifecycle_journal.cpp:67-76 | reads a length-prefixed string at the cursor or fails |
| `JournalCodec.Encode` | src/lifecycle_journal.cpp:89-112 | writes the record layout, or fails when a string or the whole record is too long |
| `JournalCodec.Decode` | src/lifecycle_journal.cpp:114-158 | one cursor over the payload: version, state, flag, numbers, texts, decimals, nothing left over |
| `JournalCodec.DecodeInvertsEncode` | src/lifecycle_journal.cpp:89-158 | decoding a record returns the order that was encoded, in every field |
| `JournalCodec.SizeIgnoresFixedFields` | src/lifecycle_journal.cpp:89-112 | the size of a record does not depend on state, flag, generation or timestamp |
| `JournalFormat.DecodesExactly` | src/lifecycle_journal.cpp:114-158 | the decoder accepts exactly the bytes that spell an order in the record layout, and gives that order |
| `JournalFormat.EncodesExactly` | src/lifecycle_journal.cpp:89-112 | exactly which orders are refused, with which code, and that the others are spelled in the layout |
| `JournalFormat.PayloadLength` | src/lifecycle_journal.cpp:89-112 | a record has 40 bytes and its five texts |
| `Checksum.ComputeCrc32` | src/lifecycle_journal.cpp:78-87 | the bit loops compute the CRC-32 of the bytes |
| `Checksum.AbsorbByte` | src/lifecycle_journal.cpp:80-85 | eight conditional shifts are the eight register steps of one byte |
| `Checksum.ShiftInjective` | src/lifecycle_journal.cpp:82-84 | one register step never merges two 32-bit states |
| `Checksum.SingleByteDetected` | src/lifecycle_journal.cpp:78-87 | two payloads that differ in one byte have different checksums |
| `ChecksumTheory.ShiftIsReduction` | src/lifecycle_journal.cpp:82-84 | one register step is multiplication by x modulo the generator polynomial of IEEE 802.3 |
| `ChecksumTheory.CheckValue` | src/lifecycle_journal.cpp:78-87 | the checksum of the nine digits is the standard's check value, which fixes start value, complement and bit order |
| `ChecksumTheory.BurstDetected` | src/lifecycle_journal.cpp:78-87 | inputs that differ only within four consecutive bytes have different checksums |
| `Journal.OrderJournal.Append` | src/lifecycle_journal.cpp:236-267 | writes record by record; stops at the first that does not fit and leaves the frames before it |
| `Journal.OrderJournal.ReplayLog` | src/lifecycle_journal.cpp:269-325 | the frame loop over the file computes `Replay`, including both corruption errors and the torn tail |
| `Journal.ReadHeader` | src/lifecycle_journal.cpp:283-298 | size and checksum fields of a frame header |
| `Journal.ReplayLogWithTail` | src/lifecycle_journal.cpp:269-325 | complete frames and a torn tail replay to the last-frame-wins map, the exact frame count, the exact valid length, and the tail flag iff there is a tail |
| `JournalFormat.EverythingSplits` | src/lifecycle_journal.cpp:269-325 | every input is complete frames followed by nothing, by the beginning of a frame, or by a spoilt one |
| `JournalFormat.ReplayDecides` | src/lifecycle_journal.cpp:269-325 | what replay answers for each of these, and that a file without the header is corrupt |
| `Journal.CutBatch` | src/lifecycle_journal.cpp:236-267 | every byte prefix of a batch is some complete frames and a torn tail |
| `Journal.CrashRecoversOldOrNew` | src/lifecycle_journal.cpp:236-325 | after a crash at any byte of a batch append, replay succeeds and every order has its old or its new value and nothing else is there |
| `Journal.DamageIsDetected` | src/lifecycle_journal.cpp:301-312 | a change within four consecutive payload bytes, or of the checksum field, of a completed frame makes replay fail as corrupt, whatever surrounds it |
| `Journal.AppendWrites` | src/lifecycle_journal.cpp:236-267 | an append writes exactly the frames before the first misfit and succeeds iff there is none |
| `PersistentTracker.PersistentOrderTracker.BeginSubmission` | src/lifecycle_journal.cpp:364-376 | journal first, publish only on success |
| `PersistentTracker.PersistentOrderTracker.ApplyCreateOutcome` | src/lifecycle_journal.cpp:378-389 | as above, for create outcomes |
| `PersistentTracker.PersistentOrderTracker.MarkSubmissionRejected` | src/lifecycle_journal.cpp:391-405 | as above; a rejection that changes nothing writes nothing |
| `PersistentTracker.PersistentOrderTracker.ApplyRestOrder` | src/lifecycle_journal.cpp:407-418 | as above, for REST records |
| `PersistentTracker.PersistentOrderTracker.ApplyWalletEvent` | src/lifecycle_journal.cpp:420-431 | as above, for wallet events |
| `PersistentTracker.PersistentOrderTracker.MarkBookRemoved` | src/lifecycle_journal.cpp:433-443 | as above, for book removals |
| `PersistentTracker.PersistentOrderTracker.RequireReconciliation` | src/lifecycle_journal.cpp:445-454 | journals the whole sorted snapshot, then publishes |
| `PersistentTracker.PersistentOrderTracker.Reconcile` | src/lifecycle_journal.cpp:456-466 | journals the whole sorted snapshot, then publishes and reports |
| `PersistentTracker.SortedSnapshot` | src/lifecycle.cpp:311-320 | lists every order of the map once, in increasing hash order |
| `PersistentTracker.SnapshotExists` | src/lifecycle.cpp:311-320 | every map that files orders under their own hashes has such a listing |
| `PersistentTracker.SortedIsUnique` | src/lifecycle.cpp:311-320 | that listing is the only one, so a batch is determined by the map |
| `PersistentTracker.SnapshotRestores` | src/lifecycle.cpp:311-343 | restoring a snapshot gives back the map it lists |
| `PersistentTracker.GenerationAfter` | src/lifecycle_journal.cpp:349-351 | the loop picks one more than the largest recovered generation, wrapping at 64 bits |
| `PersistentTracker.Open` | src/lifecycle_journal.cpp:327-362 | replay, cut the tail, restore, quarantine, journal: the opened tracker and file, or the error that stops it |
| `Durability.TransitionIsDurable` | src/lifecycle_journal.cpp:364-466 | after every successful transition the log replays; it differs from the published map nowhere after a whole-tracker transition, and after a single-order one exactly where it differed before, except at that order |
| `Durability.FailedAppend` | src/lifecycle_journal.cpp:236-257 | a refused transition publishes nothing; the log still agrees with the published map exactly when the frames left behind changed nothing |
| `Durability.TransitionAnswers` | src/lifecycle_journal.cpp:364-466 | what a persisted transition answers, and that a record bound below 128 bytes refuses everything without touching the file |
| `Durability.CompleteLogReplays` | src/lifecycle_journal.cpp:269-325 | a log of complete frames replays to its last-frame-wins map |
| `Durability.RestartOutcome` | src/lifecycle_journal.cpp:327-362 | a restart on complete frames and a torn tail cuts the tail and succeeds exactly when every recovered order is restorable |
| `Durability.RestartQuarantines` | src/lifecycle_journal.cpp:345-358 | finished orders are identical, unfinished ones change only flag and generation, and the generation exceeds every recovered one exactly when none is the largest 64-bit value |
| `Durability.RestartTwice` | src/lifecycle_journal.cpp:327-362 | restarting again always succeeds and changes only generations |
| `Trading.TradingOperation.Begin` | src/trading.cpp:148-172 | the start of an operation: expired deadline, limiter wait, or send |
| `Trading.TradingOperation.OnTimer` | src/trading.cpp:163-171 | the limiter timer either reports cancellation or sends |
| `Trading.TradingOperation.SendRequest` | src/trading.cpp:174-214 | credentials first, then the one POST |
| `Trading.TradingOperation.Handle` | src/trading.cpp:216-259 | the classification of a transport result into receipt, refusal or ambiguity |
| `Trading.TradingOperation.OnCancellation` | src/trading.cpp:261-280 | a stop before dispatch ends the operation; after dispatch the result is ambiguous |
| `Trading.TradingOperation.Complete` | src/trading.cpp:282-287 | only the first completion counts |
| `Trading.AtMostOnce` | src/trading.cpp:148-287 | over every sequence of callbacks: one POST, one completion; once posted, a plain error only for a status that is neither 2xx, 429 nor at least 500; never posted, only plain errors |
| `Trading.ResponseDecides` | src/trading.cpp:216-259 | a posted operation without completion completes with its answer: acknowledged exactly for 2xx with a receipt, plainly exactly for a refusal with that status and its code, otherwise ambiguous with the code the answer gives |
| `Trading.PostsExactlyWhen` | src/trading.cpp:148-214 | exactly which callback sends the POST |
| `Trading.WaitsExactlyWhen` | src/trading.cpp:148-172 | exactly when an operation waits for the limiter |
| `Trading.NothingIsLost` | src/trading.cpp:148-287 | every start and timer posts, waits or completes; what ends an operation without an answer, and with which error |
| `Trading.RemembersEvents` | src/trading.cpp:148-287 | an operation knows exactly whether it was started and asked to stop |
| `Trading.NoPostAfterStop` | src/trading.cpp:174-287 | nothing is posted after a stop request or after the completion |
| `ShareAmounts.FormatProtocolDecimal` | src/execution_session.cpp:21-34 | the in-place text edits give the 18-decimal form without trailing zeros |
| `ShareAmounts.ProtocolDecimalIsExact` | src/execution_session.cpp:21-51 | that text is an accepted decimal whose value is the integer over 10^18 |
| `ShareAmounts.ProtocolDecimalIsPositive` | src/execution_session.cpp:38-51 | a positive amount is tracked as a positive decimal |
| `Session.ValidRequestsAreTracked` | src/trading.cpp:55-87 | a valid create request is refused by the tracker only because its hash is known |
| `SessionSafety.RunIsSafe` | src/execution_session.cpp:69-132 | the invariant of the whole session holds in every reachable state, at any crash point |
| `SessionSafety.AtMostOnePostPerHash` | src/execution_session.cpp:77-99 | over any run of submissions, callbacks, venue events, crashes and restarts each hash is posted at most once, and only when a replay of the log already finds it |
| `SessionSafety.FreshOrderIsPosted` | src/execution_session.cpp:77-99 | the safety results are not met by refusing to trade: in any state a valid request for an unknown hash whose record fits is posted |
| `SessionSafety.JournalIsAuthoritative` | src/lifecycle_journal.cpp:327-376 | in every reachable state the journal replays, knows every hash ever posted and names exactly the published hashes, and the flag rule holds for both; `Agreement.JournalMatchesMemory` adds the values |
| `SessionSafety.RejectionIsCertain` | src/execution_session.cpp:101-113 | an order is marked rejected on submission only if it was never posted or was answered with a refusing status |
| `OrderOutcomes.SubmitIsRecorded` | src/execution_session.cpp:38-99 | after any run a request is filed exactly when acceptable, new and small enough; it is then published and journaled as pending for exactly taker / 10^18 shares of a buy and maker / 10^18 of a sale, and otherwise nothing changes |
| `OrderOutcomes.ValidationDecides` | src/trading.cpp:55-87 | exactly which create requests are valid, and the code of the others |
| `OrderOutcomes.CompletionIsRecorded` | src/execution_session.cpp:101-124 | after any run, what each completion leaves of its order in the published map and in a replay of the log; whatever is neither a plain error nor an acknowledgement leaves it flagged |
| `OrderOutcomes.AnswerIsRecorded` | src/execution_session.cpp:101-124 | the same from the HTTP answer: a 2xx with a receipt for the order leaves it accepted with that id, a refusal rejects a pending order, anything else flags it |
| `OrderOutcomes.ReportIsRecorded` | src/lifecycle_journal.cpp:407-443 | after any run, what a REST record, a wallet event and a book removal leave in the published map and in a replay |
| `OrderOutcomes.DoubtStays` | src/lifecycle.cpp:130-299 | after any run, a flagged order stays flagged unless the venue reports a known status for it or its own pending submission fails plainly |
| `SessionSafety.RestartAlwaysSucceeds` | src/lifecycle_journal.cpp:327-362 | with positive amounts and non-negative fills from the venue, after any run, wherever it crashed, the journal replays, its orders have a sorted listing and a restart from it succeeds |
| `Agreement.LedgerIsExact` | src/lifecycle_journal.cpp:236-267 | in every reachable state file and memory differ exactly at the hashes of a ledger kept without looking at the file: fed by refused batches, settled by successful records, batches and restarts |
| `Agreement.JournalMatchesMemory` | src/lifecycle_journal.cpp:364-466 | in every reachable running state a replay gives the published map, in every field, exactly when nothing is owed, and order by order exactly when that order is not |
| `Agreement.RunAgrees` | src/lifecycle_journal.cpp:364-466 | after any run in which every whole-tracker batch fitted, a replay gives exactly the published map |
| `Agreement.RepairedByNext` | src/lifecycle_journal.cpp:445-466 | after a refused batch, the next successful whole-tracker transition or restart makes file and memory equal |
| `SessionWitnesses.RefusedBatchLeavesTrace` | src/lifecycle_journal.cpp:236-257 | a concrete run after which the file says cancelled and memory says pending |
| `SessionWitnesses.GenerationWraps` | src/lifecycle_journal.cpp:349-351 | a concrete run in which a restart picks a generation below the recovered one |
| `Reconciliation.DurableSession.Submit` | src/execution_session.cpp:77-99 | the hash is journaled before a trading operation exists; which request is refused and with which code |
| `Reconciliation.DurableSession.OnResult` | src/execution_session.cpp:101-124 | errors mark a rejection, outcomes are applied to the tracker; the answer is that of the persisted transition |
| `Reconciliation.ReconcileOperation.Start` | src/execution_session.cpp:145-154 | quarantines every unfinished order, then asks for the first page |
| `Reconciliation.ReconcileOperation.OnPage` | src/execution_session.cpp:170-194 | one page: repeated cursor, page limit, next request, or the final reconciliation with every record collected, whose refusal is the verdict |
| `Reconciliation.ReconcileOperation.Finish` | src/execution_session.cpp:196-204 | the operation ends and releases the session |
| `Reconciliation.PagingIsBounded` | src/execution_session.cpp:156-194 | whatever the server answers: at most the configured number of requests, no cursor twice, complete only after a page without cursor and then with every record in order |
| `Reconciliation.PageDecides` | src/execution_session.cpp:156-194 | what one more page does to a waiting reconciliation: exactly when it completes, fails and with which code, or asks for the next page |
| `Reconciliation.EndedIgnores` | src/execution_session.cpp:156-194 | a reconciliation that has ended ignores later answers |
| `Reconciliation.QuarantineClearsNothing` | src/execution_session.cpp:145-194 | over every sequence of page results, as long as the last page has not been applied the published orders are the quarantined ones, so no flag is cleared and every unfinished order is flagged; the last page alone replaces them |
| `FixedDecimals.Parse` | src/decimal.cpp:45-140 | the scanner with exponent and checked 64-bit arithmetic computes `Parsed`, with its error cases |
| `FixedDecimals.ScanSignificand` | src/decimal.cpp:60-82 | the digit loop splits the significand at its point |
| `FixedDecimals.CheckedMultiply` | src/decimal.cpp:33-41 | the product, or an overflow exactly when it does not fit 64 bits |
| `FixedDecimals.ParseIsExact` | src/decimal.cpp:45-140 | a parsed value equals the rational the text denotes |
| `FixedDecimals.CanonicalIsUnique` | src/decimal.cpp:134-139 | two canonical decimals of equal value are identical |
| `FixedDecimals.ParseIsTheCanonicalForm` | src/decimal.cpp:45-140 | a canonical decimal with the value of an accepted text is what parsing it returns |
| `DecimalGrammar.NumeralIsLexed` | src/decimal.cpp:45-97 | every numeral is read as its digits, the number behind the point and its exponent, if that has 32 bits |
| `DecimalGrammar.LexedIsNumeral` | src/decimal.cpp:45-97 | whatever is read is such a numeral |
| `DecimalGrammar.ParseDecides` | src/decimal.cpp:45-140 | exactly which texts are parsed, and the code of each refusal |
| `DecimalGrammar.ZeroOverflows` | src/decimal.cpp:112-126 | a text that is refused although its value is representable |
| `DecimalGrammar.RescaleIsExact` | src/decimal.cpp:142-169 | rescaling keeps the number; exactly when it fails, and with which code |
| `FixedDecimals.ParsePrinted` | src/decimal.cpp:171-182 | parsing a printed canonical value returns it |
| `FixedDecimals.Price.Complement` | src/decimal.cpp:215-217 | the complement is a price of the same precision, and the two add up to one |
| `FixedDecimals.FromTicks` | src/decimal.cpp:201-213 | a price exactly for a supported precision and ticks within its scale, and the code of each refusal |
| `BookLevels.SortLevels` | src/codec.cpp:1074-1078 | a sorted permutation of the levels |
| `BookLevels.MergeSorted` | src/codec.cpp:1080-1101 | merging equal neighbours gives the normal form, or an overflow exactly when an exact total does not fit 64 bits |
| `BookLevels.ConvertLevels` | src/codec.cpp:1057-1102 | limit, sorting and merging together: the normal form of the input levels or the error |
| `BookLevels.MergeArithmetic` | src/codec.cpp:1088-1099 | the checked rescale and addition fail exactly when the exact sum does not fit |
| `BookLevels.NormalFormIsUnique` | src/codec.cpp:1065-1101 | strictly monotone prices and conserved totals determine the output |
| `BookLevels.NormalisationIsOrderIndependent` | src/codec.cpp:1065-1101 | any permutation of the input overflows in the same cases and otherwise gives the same output |
| `BookConservation.NormalisationConserves` | src/codec.cpp:1065-1101 | at every price, and in all, as many shares are on offer after normalisation as before |
| `Liquidity.QuoteMarketBuyValue` | src/liquidity.cpp:49-125 | the loop over asks computes the quote, with every refusal |
| `Liquidity.QuoteMarketSellShares` | src/liquidity.cpp:127-195 | the loop over bids computes the quote, with every refusal |
| `Liquidity.TakeFacts` | src/liquidity.cpp:82-96 | one level: never over the remaining value, and left over only as dust or with at most one wei |
| `Liquidity.QuantityIsExact` | src/liquidity.cpp:42-45 | the wei of a decimal are its value times 10^18, exactly |
| `Liquidity.PriceIsExact` | src/liquidity.cpp:38-40 | the wei of a price are its ticks over its scale times 10^18, exactly |
| `LiquidityProperties.BuyTakesAre` | src/liquidity.cpp:79-96 | what a quote takes of each ask, from what is left of the value there: nothing, the whole level, or the most that the rest pays for |
| `LiquidityProperties.SellTakesAre` | src/liquidity.cpp:161-173 | what a quote sells into each bid, from what is left there |
| `BookQuotes.BuyQuoteOnBook` | src/liquidity.cpp:49-125 | a buy quote in the book's decimals: takes at most what each level offers, spends the floored ticks of it, leaves more than a wei only after taking every level worth a wei whole, and its worst price is that of the last level used |
| `BookQuotes.SellQuoteOnBook` | src/liquidity.cpp:127-195 | the same for a sale |
| `BookQuotes.BuyIsQuoted` | src/liquidity.cpp:49-125 | on sorted asks of positive price and quantity a positive value is quoted unless its shares exceed 256 bits |
| `BookQuotes.SellIsQuoted` | src/liquidity.cpp:127-195 | the same for a sale and its proceeds |
| `LiquidityProperties.BuyWalkSums` | src/liquidity.cpp:67-103 | a successful walk has spent, bought and weighted exactly what the greedy allocation does |
| `LiquidityProperties.BuyIsGreedy` | src/liquidity.cpp:67-103 | a level is used only when every earlier one is whole or dust, within the value |
| `LiquidityProperties.SellIsGreedy` | src/liquidity.cpp:145-173 | bids are sold whole and in order, at falling prices |
| `LiquidityProperties.BuyIsOptimal` | src/liquidity.cpp:67-103 | no allocation that skips dust and whose exact cost is at most the quoted one buys more shares |
| `LiquidityProperties.BuyIsOptimalWithoutDust` | src/liquidity.cpp:67-103 | without dust levels, no allocation at all does |
| `LiquidityProperties.DustBreaksOptimality` | src/liquidity.cpp:82-96 | a concrete ladder with a dust level on which a better allocation exists |
| `QuoteOptimality.OptimalIff` | src/liquidity.cpp:67-103 | on sorted asks no allocation of at most the quoted cost buys more, exactly when the ladder is bought up or the cheapest way to one unit more costs more than the quote |
| `QuoteOptimality.OptimalUnlessDustIsCheaper` | src/liquidity.cpp:82-96 | it suffices that no dust level is cheaper than the last price used |
| `QuoteOptimality.AlwaysOptimalIff` | src/liquidity.cpp:67-103 | a sorted ladder is quoted optimally for every value exactly when it has no dust or its solid levels cost less than the cheapest way to one unit more |
| `LiquidityProperties.SellIsOptimal` | src/liquidity.cpp:145-173 | no allocation of at most the sold shares returns more |
| `LiquidityProperties.BuyQuoteFacts` | src/liquidity.cpp:49-125 | spent plus unspent is the request; an incomplete quote has spent the floored cost of the ladder; the average lies between first and last price used |
| `LiquidityProperties.SellQuoteFacts` | src/liquidity.cpp:127-195 | sold plus unsold is the request; an incomplete sale has sold the ladder; the return is within one wei per level of the exact proceeds |
| `LiquidityProperties.RoundTripFacts` | src/liquidity.cpp:197-226 | a round trip sells what it bought, its loss is the shortfall of recovered against spent, and it is complete when both legs are |
| `LiquidityProperties.RoundTripNeverGains` | src/liquidity.cpp:197-226 | buying and selling back into bids no dearer recovers less than the value spent plus one wei per ask level used |
| `OrderBook.ConvertOrderbook` | src/codec.cpp:1155-1175 | both sides in normal form; accepted exactly when both sides convert and no bid is at or above an ask |
| `OrderBook.NoViewIsValid` | src/orderbook.cpp:5-19 | the derived NO book is again a valid, sorted, uncrossed book, and deriving twice gives the book back |
| `OrderBook.NoViewMirrors` | src/orderbook.cpp:12-17 | the k-th NO ask has the quantity of the k-th YES bid at one minus its price, and the k-th NO bid that of the k-th YES ask |
| `OrderBook.NoFreeRoundTrip` | src/liquidity.cpp:197-226 | the round-trip bound on every decoded book |
| `OrderBook.NoFreeRoundTripOnNo` | src/orderbook.cpp:5-19 | the round-trip bound on the derived NO side |
| `OrderAmounts.Truncate` | src/order_amounts.cpp:37-47 | the divisor loop truncates to the leading digits |
| `OrderAmounts.TruncationKeepsLeadingDigits` | src/order_amounts.cpp:37-47 | the result is the number whose decimal text keeps the leading digits and has zeros behind them |
| `OrderAmounts.Process` | src/order_amounts.cpp:55-85 | the fill loop over a side of the book, with its refusals |
| `OrderAmounts.MarketAmountsForQuantity` | src/order_amounts.cpp:87-160 | amounts of a quantity order, with every refusal |
| `OrderAmounts.WalkValue` | src/order_amounts.cpp:258-285 | the value loop over asks |
| `OrderAmounts.MarketAmountsForValue` | src/order_amounts.cpp:249-294 | amounts of a value buy: the walk, truncation and the quantity order built from it |
| `OrderAmounts.FillIsCheapest` | src/order_amounts.cpp:55-85 | on sorted asks no allocation with as many shares costs less |
| `OrderAmounts.RewalkSucceeds` | src/order_amounts.cpp:249-294 | the second walk, by quantity, finds valid levels and enough liquidity |
| `OrderAmounts.ValueBuyNeverStarves` | src/order_amounts.cpp:249-294 | a value buy whose walk succeeds never fails for missing liquidity or an invalid level |
| `OrderAmounts.MinOutMakerBound` | src/order_amounts.cpp:87-139 | in min-amount-out mode on sorted asks the maker amount is below the value plus one wei per level |
| `OrderAmounts.BuyMakerBounds` | src/order_amounts.cpp:87-139 | in the other buy mode the floored walk cost <= maker amount <= quantity |
| `OrderAmounts.SellTakerBound` | src/order_amounts.cpp:87-160 | a sale on sorted bids asks for no more than the floored walk proceeds |
| `AmountProperties.QuantityAmounts` | src/order_amounts.cpp:87-160 | the amounts of a quantity order from its fill, the price p of the last level used and base = floor(p * quantity): maker is base without slippage and otherwise the smaller of the quantity and floor(base * (1 + slippage)); the takers are floor(base * (1 - slippage)), with base = floor(cost / p) in min-out mode; the floored average |
| `AmountProperties.ValueAmounts` | src/order_amounts.cpp:249-294 | a value buy orders the leading five digits of what its walk buys, with those amounts |
| `AmountProperties.ValueTakesAre` | src/order_amounts.cpp:258-285 | a value walk takes a level whole exactly when the rest pays its floored cost, and otherwise the most that the rest pays for |
| `AmountProperties.ProcessDecides` | src/order_amounts.cpp:55-85 | a fill succeeds exactly when the leading levels hold the quantity and they and the next one are valid |
| `AmountProperties.QuantityDecides` | src/order_amounts.cpp:87-160 | which refusal a quantity order meets |
| `AmountProperties.TruncationIsIdempotent` | src/order_amounts.cpp:37-47 | truncating twice is truncating once |
| `Hex.Decode` | src/chain_abi.cpp:34-49 | accepts exactly even-length prefixed hexadecimal text of either case and returns its bytes |
| `Hex.Encode` | src/chain_abi.cpp:51-60 | the prefixed lower-case text of the bytes |
| `Hex.DecodeInvertsEncode` | src/chain_abi.cpp:34-60 | decoding encoded bytes returns them |
| `Hex.EncodeInvertsDecode` | src/chain_abi.cpp:34-60 | accepted text re-encodes to itself in lower case |
| `Hex.DecodeQuantity` | src/chain_abi.cpp:62-82 | the digit loop, with the prefix, leading-zero, digit and 256-bit refusals |
| `Hex.EncodeQuantity` | src/chain_abi.cpp:112-123 | the shortest hexadecimal text of a number |
| `Hex.QuantityRoundTrip` | src/chain_abi.cpp:62-123 | decoding an encoded 256-bit number returns it |
| `Hex.QuantityIsCanonical` | src/chain_abi.cpp:62-123 | only the canonical text of a value decodes to it, up to letter case |
| `Hex.DecodesExactly` | src/chain_abi.cpp:34-49 | exactly `0x` and an even number of digits of either case are decoded |
| `Hex.QuantityDecides` | src/chain_abi.cpp:62-82 | exactly which texts are quantities, and the code of the others |
| `Rlp.AppendLength` | src/chain_transaction.cpp:18-28 | the backwards-filled buffer holds the minimal big-endian length behind its prefix |
| `Rlp.AppendBytes` | src/chain_transaction.cpp:30-41 | the RLP string of the bytes |
| `Rlp.IntegerBytes` | src/chain_transaction.cpp:43-53 | the push-and-reverse loop gives the minimal big-endian bytes |
| `Rlp.AppendList` | src/chain_transaction.cpp:59-81 | the RLP list of already encoded strings |
| `Rlp.ListRoundTrip` | src/chain_transaction.cpp:18-81 | a strict reader recovers every string of an encoded list |
| `Rlp.ListIsCanonical` | src/chain_transaction.cpp:18-81 | whatever the strict reader accepts is exactly the encoding of what it read |
| `Transactions.EncodeSigning` | src/chain_transaction.cpp:128-140 | the hashed payload reads back as the transaction's fields and chain; fails exactly on bad data text |
| `Transactions.SignLegacyTransaction` | src/chain_transaction.cpp:142-168 | the raw text reads back as the fields, chain, recovery id and both signature words; the error cases in order |
| `Transactions.TrimWord` | src/chain_transaction.cpp:117-124 | dropping leading zero bytes gives the minimal bytes of the word |
| `Transactions.SigningRoundTrip` | src/chain_transaction.cpp:128-140 | the nine-string list determines nonce, gas price, gas limit, recipient, value, data and chain |
| `Transactions.SigningIsInjective` | src/chain_transaction.cpp:128-140 | equal payloads to sign are equal transactions |
| `Transactions.SigningIsCanonical` | src/chain_transaction.cpp:128-140 | a payload the reader accepts is the payload of what it read |
| `Transactions.SignedRoundTrip` | src/chain_transaction.cpp:142-168 | the raw bytes determine the fields, and v determines chain and recovery id |
| `Transactions.SignedIsCanonical` | src/chain_transaction.cpp:142-168 | raw bytes the reader accepts are the raw bytes of what it read |
| `Transactions.SignatureIs` | src/chain_transaction.cpp:103-115 | a signature text is exactly the 65 bytes of r, s and 27 plus the recovery id |
| `Transactions.OutcomeIs` | src/chain_transaction.cpp:142-168 | what is signed is the transaction's own fields with the signer's signature; which error is reported otherwise |
| `Abi.EncodeWord` | src/chain_abi.cpp:125-137 | the 32-byte buffer holds the number, or overflow exactly when it does not fit |
| `Abi.WordRoundTrip` | src/chain_abi.cpp:125-137 | a word reads back as its number |
| `Abi.EncodeCallWithBytes` | src/chain_abi.cpp:197-220 | selector, fixed words, offset, length, bytes and padding |
| `Abi.CallWithBytesReads` | src/chain_abi.cpp:197-220 | following the offset recovers the bytes, with zero padding to a word |
| `Abi.EncodeCallWithArray` | src/chain_abi.cpp:166-195 | selector, fixed words around an offset, count and values |
| `Abi.CallWithArrayReads` | src/chain_abi.cpp:166-195 | following the offset recovers the count, every value and every fixed word |
| `CancelOrders.EncodeOrderTuple` | src/chain_operations.cpp:58-106 | the tuple of an order, or a refusal exactly for a missing or malformed signature |
| `CancelOrders.TupleSize` | src/chain_operations.cpp:82-105 | head, length word, signature and padding; a whole number of words |
| `CancelOrders.TupleReads` | src/chain_operations.cpp:58-106 | a reader recovers all thirteen fields and the signature, whatever follows |
| `CancelOrders.SeenIs` | src/chain_operations.cpp:58-106 | the contract sees every field as it was signed, the zero address for a public taker, and the bytes of a signature that must not be empty |
| `CancelOrders.UnroutableIs` | src/chain_operations.cpp:155-163 | an account route needs an account other than the zero address |
| `CancelOrders.OffsetLands` | src/chain_operations.cpp:131-139 | the i-th offset word holds the exact position of the i-th tuple |
| `CancelOrders.CalldataReads` | src/chain_operations.cpp:108-141 | following root offset, count and offsets recovers every order |
| `CancelOrders.CalldataIsInjective` | src/chain_operations.cpp:108-141 | equal calldata cancels equal orders |
| `CancelOrders.RunningOffsets` | src/chain_operations.cpp:131-137 | the running sum gives the offset words |
| `CancelOrders.EncodeCancelOrders` | src/chain_operations.cpp:108-141 | fails exactly when an order has no usable signature; otherwise the text reads back as selector and orders |
| `CancelOrders.RouteTransaction` | src/chain_operations.cpp:155-183 | unchanged for an own account; otherwise a call whose bytes unpack to recipient, value and inner calldata; its two refusals |
| `PrivateStream.PrivateStreamClient.Start` | src/private_wss.cpp:51-65 | start once, or stop on a refused configuration |
| `PrivateStream.PrivateStreamClient.Stop` | src/private_wss.cpp:67-82 | clears every flag and reports the stop |
| `PrivateStream.PrivateStreamClient.Dialling` | src/private_wss.cpp:84-128 | a new generation, and a reconnect when there is no channel or key |
| `PrivateStream.PrivateStreamClient.OnOpened` | src/private_wss.cpp:130-141 | only the current generation's open starts a session |
| `PrivateStream.PrivateStreamClient.AskForWallet` | src/private_wss.cpp:143-176 | the subscription request and its failures |
| `PrivateStream.PrivateStreamClient.OnReceived` | src/private_wss.cpp:193-246 | one frame of the current generation |
| `PrivateStream.PrivateStreamClient.OnResponse` | src/private_wss.cpp:248-264 | only the answer to the pending request counts |
| `PrivateStream.PrivateStreamClient.OnMarkReconciled` | src/private_wss.cpp:266-275 | the caller's mark counts only for the current generation in the right state |
| `PrivateStream.PrivateStreamClient.Reconnect` | src/private_wss.cpp:307-338 | one pending reconnect at a time, everything about the session dropped |
| `PrivateStream.PrivateStreamClient.OnFailure` | src/private_wss.cpp:277-289 | a failed write or a missed heartbeat of the current generation reconnects |
| `PrivateStream.PrivateStreamClient.OnAckTimeout` | src/private_wss.cpp:291-305 | a late acknowledgement of the current generation reconnects |
| `PrivateStream.PrivateStreamClient.OnReconnectTimer` | src/private_wss.cpp:327-337 | the timer dials again |
| `PrivateStream.PrivateStreamClient.Enqueue` | src/private_wss.cpp:340-352 | appended exactly when there is room |
| `PrivateStream.PrivateStreamClient.Transition` | src/private_wss.cpp:354-365 | the state event, or a lone degraded event when the queue is full |
| `PrivateStream.PrivateStreamClient.Pop` | src/private_wss.cpp:367-374 | the oldest event leaves the queue |
| `StreamSafety.RunIsGood` | src/private_wss.cpp:51-365 | the session invariant holds in every reachable state, with late callbacks |
| `StreamSafety.ReconciledDataIsCertified` | src/private_wss.cpp:84-275 | a reconciled event of generation g follows the connect of g, the client's own request, the answer to that request and the mark for g, with no interruption up to the event |
| `StreamSafety.ReconciledDataIsReachable` | src/private_wss.cpp:130-275 | an undisturbed session does publish a reconciled event |
| `StreamSafety.LiveIffReconciled` | src/private_wss.cpp:248-338 | in every reachable state live is the same as reconciled, and then the channel is up |
| `StreamSafety.StaleHasNoEffect` | src/private_wss.cpp:130-305 | callbacks and marks of another generation change nothing |
| `StreamSafety.FaultIff` | src/private_wss.cpp:226-246 | a reachable step uses a null channel exactly when it answers a current heartbeat after a reconnect was scheduled |
| `StreamSafety.LateHeartbeatFaults` | src/private_wss.cpp:226-246 | a concrete run that reaches that step |
| `StreamSafety.QueueIsBounded` | src/private_wss.cpp:340-365 | the queue never exceeds the larger of one and the configured bound |
| `StreamSafety.QueueBoundIff` | src/private_wss.cpp:340-365 | the configured bound holds in all runs exactly when it is at least one |
| `StreamSafety.Drive` | src/private_wss.cpp:51-374 | a client object handed the steps of any run holds what the run says, so the results hold of its fields |
| `StreamReactions.RunIsPhased` | src/private_wss.cpp:51-365 | in every reachable state the client is in one of six phases, each with all its flags; it is never in the degraded state it announces |
| `StreamReactions.SessionEndsExactlyWhen` | src/private_wss.cpp:130-338 | exactly which callbacks of a session leave the client waiting to reconnect |
| `StreamReactions.DialsExactlyWhen` | src/private_wss.cpp:51-128 | exactly when a start, the reconnect timer and a stop dial, and what they leave |
| `StreamReactions.SessionAdvances` | src/private_wss.cpp:130-305 | how a session gets from its connection to live data, step by step |
| `StreamReactions.RequestIdsAreFresh` | src/private_wss.cpp:143-176 | no request id is used twice, in whatever session |
| `StreamDelivery.RunIsTold` | src/private_wss.cpp:340-374 | in every reachable state each reconciled event, taken or queued, is directly preceded among state changes by the announcement of its own generation |
| `StreamDelivery.ConsumerIsTold` | src/private_wss.cpp:266-374 | before any reconciled event of g it takes, exactly one mark for g took effect, and the consumer's last state event is of g: live exactly when the queue had room at that mark, degraded otherwise |
| `StreamDelivery.OverflowHidesLive` | src/private_wss.cpp:354-365 | a concrete run in which a live session's consumer takes the degraded event and then a reconciled one |
| `RateLimiting.RateLimiter.constructor` | src/rate_limiter.cpp:14-28 | full buckets for the key and for each limited endpoint |
| `RateLimiting.RateLimiter.ReserveAt` | src/rate_limiter.cpp:55-76 | the reservation in both buckets and the delay told to the caller |
| `RateLimiting.RateLimiter.PenalizeAt` | src/rate_limiter.cpp:78-95 | the cooldown of the endpoint, its bucket and, on request, the key |
| `RateLimiting.TokenIsThere` | src/rate_limiter.cpp:30-53 | at the promised time, or later, a whole token is in the bucket |
| `RateLimiting.RunIsAudited` | src/rate_limiter.cpp:30-95 | over any calls, tokens plus grants never exceed capacity plus inflow, for every bucket |
| `RateLimiting.BucketsAreFair` | src/rate_limiter.cpp:30-95 | for any calls: grant times in order, tokens within the bucket, at most capacity + rate * (t - s) grants in any interval |
| `RateLimiting.DelayCovers` | src/rate_limiter.cpp:74-76 | the told delay reaches both grant times and overshoots by less than a millisecond |
| `RateLimiting.NoGrantBeforeCooldown` | src/rate_limiter.cpp:63-95 | after a penalty, however reached and however long ago, no reservation of that endpoint, or of any for a key-wide one, may send before its end |
| `LimiterLaws.GrantsPerMinute` | src/rate_limiter.cpp:14-95 | a limiter for n requests a minute grants at most 2n in any 60 seconds, for the key and for every endpoint |
| `LimiterLaws.BurstIsExact` | src/rate_limiter.cpp:30-76 | of reservations at one time the first n wait zero and each further one exactly another n-th of a minute, for the key and for its endpoint |
| `LimiterLaws.PenaltyIsExact` | src/rate_limiter.cpp:55-95 | with full buckets the next request after a penalty is granted exactly at its end, and requests it does not concern at once |

## Left out

- RateLimiting.RateLimiter.ReserveAt: doubles are real numbers and durations are not cut to nanoseconds.
- RateLimiting.BucketsAreFair: bounds each bucket's own grant times; the times at which callers send, the later of two buckets, are not bounded.
- Durability.TransitionIsDurable: needs a record bound of at least 128 bytes and below 2^32; above that the code's 32-bit size field is cut short.
- SessionSafety.AtMostOnePostPerHash: a failed disk write ends the run like a crash; appending again behind a partial write is not modelled.
- Journal.DamageIsDetected: damage to the size field of a frame, which can look like a torn tail, is not detected; `JournalFormat.ReplayDecides` says what such a file replays to.
- Trading.TradingOperation.Handle: the limiter penalty that a 429 answer causes (src/trading.cpp:244-246) is not part of the operation; `RateLimiting.RateLimiter.PenalizeAt` models it.
- PersistentTracker.SortedSnapshot: `std::sort` is an insertion sort here, and the same holds for BookLevels.SortLevels; equal keys have no order the result depends on.
- Lifecycle.OrderTracker.Reconcile: the unresolved hashes are reported as a set, not in the map's iteration order.
- PrivateStream.PrivateStreamClient.Dialling: the generation is unbounded, where the code has 64 bits; backoff delays and counters are not modelled.
- PrivateStream.PrivateStreamClient.Transition: one step here; the code takes the queue lock once for the refused enqueue and again for the clearing (src/private_wss.cpp:354-365), so a pop between the two is not modelled.
- PrivateStream.PrivateStreamClient.Enqueue: the consumer's ready callback is not re-entered while a handler runs.
- Transactions.EncodeSigning: stops at the bytes that are hashed; the digest and the signer's answer are parameters.
- CancelOrders.EncodeCancelOrders: the selector is a parameter, since hashing is not modelled.
- Error messages and field names: only error codes are modelled.
- Text of 256-bit integers: a `Uint256` is its number.
- Mutable pointers handed out by the tracker, two writers on one journal, and `flush_after_append = false`.
- Files, fsync, Asio, TLS, HTTP and WebSocket transports: a crash keeps a byte prefix, and a transport answers anything.
- JSON decoding: the model starts from decoded levels, records, events and frames.
- Keccak, secp256k1, EIP-712 and the signers.
- The public stream, the REST and authentication clients, the chain client, the tools and the other contract calls.
- `limit_amounts`, `decimal_to_wei` and `parse_retry_after`: short arithmetic and parsing that would add only easy members.
