# Verified models of the QR encoder and the client protocols

A Dafny model of three parts of the repository, with proofs of what they promise.

**The QR encoder** (`auth/flow-ui/qr.js`), from a text to the finished matrix:

| file | models |
|---|---|
| `Utf8.dfy` | what `TextEncoder` makes of a text, and its inverse |
| `Galois.dfy` | the tables of GF(256) and the field laws of the table product |
| `ReedSolomon.dfy` | generator, remainder, and the distance of the code |
| `Bitstream.dfy`, `Assembly.dfy` | bits, version choice, data codewords, blocks, interleaving, and a reader of all that |
| `Pattern.dfy`, `Zigzag.dfy`, `Capacity.dfy`, `Bch.dfy` | reserved modules, placement order, room for the codewords, format and version words |
| `Matrix.dfy` | the writes of `buildMatrix` against a closed form of every module |
| `Reader.dfy` | a reader of matrices and the end-to-end round trip |
| `Hamming.dfy`, `Damage.dfy` | how much of a symbol may be damaged before it is another one's |
| `Penalty.dfy`, `Encoder.dfy` | the mask penalty, the best mask, and `qrMatrix` |

**Client protocols**, each as the source's mutable state and callbacks, proved against a step
function, and then as runs of arbitrary length against an arbitrary environment:
`StreamTracker.dfy`, `ResyncScheduler.dfy`, `ConnectionLoop.dfy`, and `UserWs.dfy`, which wires the
three together (user WebSocket),
`ToolStream.dfy` (tool-activity stream), `PaneDeferral.dfy` (hidden panes),
`InvalidationQueue.dfy` (flush), `TaskLoader.dfy` (in-flight fetches), `TokenUsage.dfy` (throttle).
A run is a list of steps in any order that the environment allows: frames, timers, settlements,
visibility changes. The clock never goes back, a timer fires no earlier than it is due, and
request and socket identities are fresh.

**Order and partition algorithms**: `SearchScopes.dfy` (search scopes), `MessageEvents.dfy` (echo
table, read receipts, paged transcripts), `ActivityRing.dfy` (activity ring), `Markdown.dfy`,
`TableRow.dfy` and `UrlTail.dfy` (Markdown lines, table rows, URL tails). `Options.dfy`,
`Arithmetic.dfy` and `Text.dfy` hold what several of them share.

The standard meant throughout is ISO/IEC 18004, sections 8.4 to 8.9 and Annexes C and D; for texts,
section 3 of RFC 3629.

## Where the code differs from what it says

- The lifecycle comment of the user WebSocket (`src/ui/api/useUserWebSocket.ts:74-83`) has the loop
  retry or park. An empty URL (line 212) does neither: the loop stops for good, because only a
  parked loop can be resumed. `ConnectionLoop.QuietIffNoUrl` says exactly when.
- `src/ui/api/wsInvalidation.ts:268` joins chain and task ids with a colon, so two tasks can share a
  key, and the second one's events are lost. `TaskLoader.ServedIffKeysAreDistinct` says
  exactly when; `TaskLoader.SharedKeyLosesEvents` has the run.
- `src/ui/components/markdownRender.ts:178` takes an escaped pipe at the end of a row for the outer
  one, and lines 177-178 an empty cell at either end of a row without outer pipes.
  `TableRow.BareRowRoundTripsIff` says exactly when.
- `src/ui/search/scopedSearchLogic.ts:120` misses that the root contains every absolute path:
  `SearchScopes.TestAgreesIff` says exactly when the test agrees with containment, and
  `SearchScopes.RootAndRepoSurvive` has the example. The pass over roots drops by id, so a repeated
  id can lose a root together with its subdirectory (`SearchScopes.CoverageIff`).
- `src/ui/store/agentActivitySlice.ts:94-107` forgets a shown action early when a later one is
  stamped ahead of the clock (`ActivityRing.ClockSkewReplays`, `ActivityRing.ReplayIsExact`).
- `src/ui/api/conversationMessageEvents.ts:111-126` keeps a transcript free of duplicates only while
  the newest page does not start further back (`MessageEvents.DuplicateFreeIff`).
- `src/ui/api/toolActivityStream.ts:148` caps the retry delay at 30 s; the delays stop at 16 s
  (`ToolStream.RetriesWait`).

## Model

| member | source | states |
|---|---|---|
| `Galois.Tables.constructor` | auth/flow-ui/qr.js:40-49 | the doubling loop fills EXP with the powers of alpha, cycled to 512, and LOG with their logarithms: EXP and LOG are inverse on the nonzero bytes |
| `Galois.Tables.Multiply` | auth/flow-ui/qr.js:50 | the table product is the field product of the definition below |
| `Galois.MulIsProduct` | auth/flow-ui/qr.js:40-50 | the table product equals shift-and-add multiplication modulo 0x11d, for all 65536 pairs |
| `Galois.MulAssoc` | auth/flow-ui/qr.js:50 | the product is associative |
| `Galois.MulComm` | auth/flow-ui/qr.js:50 | the product is commutative |
| `Galois.MulAdd` | auth/flow-ui/qr.js:50 | the product distributes over XOR on both sides |
| `Galois.MulNonzero` | auth/flow-ui/qr.js:50 | the product of nonzero bytes is nonzero: there are no zero divisors |
| `Galois.PowerInjective` | auth/flow-ui/qr.js:42-47 | the first 255 powers of alpha are all different, so no LOG entry is overwritten |
| `Galois.PowerOnto` | auth/flow-ui/qr.js:42-47 | every nonzero byte is a power of alpha, so every LOG entry is filled |
| `Galois.NoShorterPeriod` | auth/flow-ui/qr.js:42-48 | alpha has order 255 and no smaller one |
| `Galois.PowerCycle` | auth/flow-ui/qr.js:48 | the powers repeat with period 255, which is why EXP can be extended by copying |
| `ReedSolomon.TimesLinear` | auth/flow-ui/qr.js:55-60 | one pass of the inner loop multiplies a polynomial by (x + alpha^i) |
| `ReedSolomon.RsGenerator` | auth/flow-ui/qr.js:52-65 | the nested loops return the generator polynomial, leading coefficient first |
| `ReedSolomon.GeneratorRoots` | auth/flow-ui/qr.js:52-65 | the generator vanishes exactly at alpha^0..alpha^(degree-1) |
| `ReedSolomon.GeneratorIsMonic` | auth/flow-ui/qr.js:62-64 | after the reversal the generator has degree+1 coefficients and starts with 1 |
| `ReedSolomon.RsRemainder` | auth/flow-ui/qr.js:67-76 | the shift-register loop computes the remainder |
| `ReedSolomon.CodewordVanishes` | auth/flow-ui/qr.js:67-76 | for data of any length and any degree from 1, data followed by the remainder evaluates to zero at every root of the generator |
| `ReedSolomon.RemainderIsUnique` | auth/flow-ui/qr.js:67-76 | the remainder is the only tail of that length with which the word is in the code |
| `ReedSolomon.MinimumDistance` | auth/flow-ui/qr.js:67-76 | two different words of the code of at most 255 bytes differ in more than degree places |
| `ReedSolomon.DamageIsCorrectable` | auth/flow-ui/qr.js:67-76 | a word with at most half of degree bytes damaged is still nearest to the word that was sent |
| `Bitstream.Bits.Push` | auth/flow-ui/qr.js:81-83 | a push appends the value's bits, most significant first |
| `Bitstream.UnpackPack` | auth/flow-ui/qr.js:112-117 | bytes packed from bits unpack to the same bits |
| `Bitstream.PackUnpack` | auth/flow-ui/qr.js:112-117 | bits unpacked from bytes pack to the same bytes |
| `Assembly.ChooseVersion` | auth/flow-ui/qr.js:92-99 | the smallest version that fits is chosen, and none exactly above 412 bytes |
| `Assembly.CountFits` | auth/flow-ui/qr.js:94-107 | the 8- or 16-bit character count never truncates for a version that fits |
| `Assembly.PackBits` | auth/flow-ui/qr.js:112-117 | the byte loop packs groups of eight bits |
| `Assembly.BuildData` | auth/flow-ui/qr.js:102-119 | mode, count, bytes, terminator, padding and fill come to exactly the version's data codewords |
| `Assembly.ParseDataCodewords` | auth/flow-ui/qr.js:102-119 | a reader of mode and count gets the bytes back from the data codewords, whatever terminator and padding follow |
| `Assembly.SplitBlocks` | auth/flow-ui/qr.js:121-130 | the block loop splits the data by the version's sizes and appends each block's remainder |
| `Assembly.FlattenSplit` | auth/flow-ui/qr.js:122-128 | the blocks, put together again, are the data |
| `Assembly.Interleave` | auth/flow-ui/qr.js:131-134 | the nested loops interleave row by row, skipping blocks that are too short |
| `Assembly.DeinterleaveRows` | auth/flow-ui/qr.js:131-134 | a reader that knows the sizes takes interleaved blocks apart again, for any sizes |
| `Assembly.RowsTotal` | auth/flow-ui/qr.js:131-134 | interleaving counts every codeword exactly once |
| `Assembly.CodewordsSplit` | auth/flow-ui/qr.js:131-135 | the output has exactly data plus error-correction length, and both halves read back as the blocks |
| `Assembly.BlocksAreCodewords` | auth/flow-ui/qr.js:124-130 | every block with its own error correction is a word of the Reed-Solomon code |
| `Assembly.ReceivedIsSent` | auth/flow-ui/qr.js:121-135 | an undamaged stream reads, block by block, as the words that were sent |
| `Assembly.DamageIdentifiesPayload` | auth/flow-ui/qr.js:102-136 | a stream with at most half the error-correction count of damaged codewords in each block still belongs to one payload only |
| `Assembly.ReadCodewords` | auth/flow-ui/qr.js:102-136 | reading the codewords of a payload gives the payload |
| `Assembly.BuildCodewords` | auth/flow-ui/qr.js:102-136 | buildCodewords returns those codewords, which read back as the payload |
| `Pattern.PatternsIntact` | auth/flow-ui/qr.js:146-182 | where patterns overlap they agree, so each module of a pattern has that pattern's value, and none is a format module |
| `Pattern.ReservedCovered` | auth/flow-ui/qr.js:146-182 | reserved modules are exactly those that hold a pattern or a format bit, and all of column 6 is reserved |
| `Zigzag.ZigzagIsBijection` | auth/flow-ui/qr.js:184-201 | the zigzag order and the bit index are inverse: every unreserved module once, no other, never column 6 |
| `Capacity.RoomForAllCodewords` | auth/flow-ui/qr.js:184-201 | every version has at least as many data modules as codeword bits |
| `Bch.FormatTable` | auth/flow-ui/qr.js:203-207 | the BCH loop yields the masked format words of ISO/IEC 18004 for all masks at level M |
| `Bch.VersionTable` | auth/flow-ui/qr.js:173-176 | the BCH loop yields the version words of ISO/IEC 18004 for versions 7 to 15 |
| `Bch.ComputeFormat` | auth/flow-ui/qr.js:203-207 | the format loop computes the word of the mask |
| `Bch.ComputeVersion` | auth/flow-ui/qr.js:173-176 | the version loop computes the word of the version |
| `Matrix.DrawFinder` | auth/flow-ui/qr.js:147-153 | a finder and its separator are written and reserved, clipped to the matrix, and nothing else changes |
| `Matrix.DrawTiming` | auth/flow-ui/qr.js:155 | both timing lines are written and reserved, and nothing else changes |
| `Matrix.DrawAlignments` | auth/flow-ui/qr.js:157-164 | every alignment pattern but those on a finder is written and reserved |
| `Matrix.KeepFormat` | auth/flow-ui/qr.js:169-171 | the format areas are reserved without being written |
| `Matrix.DrawVersion` | auth/flow-ui/qr.js:172-182 | from version 7 both version blocks hold the version word |
| `Matrix.PlaceData` | auth/flow-ui/qr.js:185-201 | every unreserved module gets the masked data bit of its zigzag index, or a masked zero beyond the codewords |
| `Matrix.WriteFormat` | auth/flow-ui/qr.js:211-218 | both format copies and the dark module are written, and nothing else |
| `Matrix.BuildMatrix` | auth/flow-ui/qr.js:139-221 | every module of the finished matrix is 0 or 1, with the value of its closed form |
| `Matrix.PatternsSurvive` | auth/flow-ui/qr.js:184-218 | data and format writes leave finder, timing, alignment, version and dark modules as drawn, for any data and mask |
| `Reader.FormatCopies` | auth/flow-ui/qr.js:208-217 | either copy of the format bits reads as the word of the mask |
| `Reader.BitsAreCodewords` | auth/flow-ui/qr.js:184-201 | unmasking the data modules in zigzag order gives the codewords' bits |
| `Reader.DecodeDrawn` | auth/flow-ui/qr.js:139-221 | a reader that takes the mask from the format modules recovers the codewords' payload, under every mask |
| `Reader.RoundTrip` | auth/flow-ui/qr.js:92-221 | end to end: every payload that fits a version is read back from its matrix, under every mask |
| `Damage.FormatWordsAreApart` | auth/flow-ui/qr.js:203-217 | two different format words differ in at least seven of their fifteen bits |
| `Damage.UntouchedReads` | auth/flow-ui/qr.js:184-201 | a codeword none of whose modules is damaged is read as drawn, whatever the others are |
| `Damage.DamagedSymbolIdentifiesPayload` | auth/flow-ui/qr.js:92-221 | a symbol with at most three damaged modules in a format copy, and otherwise damage to at most half as many codewords of each block as it has for error correction, belongs to one version, mask and payload only |
| `Penalty.LastRunCost` | auth/flow-ui/qr.js:243-250 | run costs can be taken off a line from its end as well as from its start, which the incremental score relies on |
| `Penalty.ScoreRuns` | auth/flow-ui/qr.js:241-252 | the incremental counter totals the cost of the maximal runs of all rows or columns |
| `Penalty.ScoreBlocks` | auth/flow-ui/qr.js:253-257 | three for every 2x2 block of one colour |
| `Penalty.ScoreFinders` | auth/flow-ui/qr.js:258-267 | forty for every finder-like pattern with four light modules on one side |
| `Penalty.ShareInSteps` | auth/flow-ui/qr.js:268-272 | each floating-point operation of rule 4 may round, and still the whole steps of five per cent from one half are counted exactly: for any rounding within 10^-12 that keeps whole numbers, as double precision is on numbers below a thousand |
| `Penalty.ScoreMatrix` | auth/flow-ui/qr.js:237-274 | the penalty is the sum of the four rules over rows and columns, under any such rounding |
| `Encoder.BestMatrix` | auth/flow-ui/qr.js:280-287 | the matrix returned has the first mask of least penalty |
| `Encoder.QrMatrix` | auth/flow-ui/qr.js:277-288 | fails exactly when the text's UTF-8 is longer than 412 bytes, and otherwise returns the text's symbol, which decodes to the text with its lone surrogates replaced |
| `Encoder.SymbolDecodes` | auth/flow-ui/qr.js:277-288 | every symbol of a payload decodes to it |
| `Encoder.SymbolsAreDistinct` | auth/flow-ui/qr.js:277-288 | two payloads never share a symbol |
| `Encoder.TextDecodes` | auth/flow-ui/qr.js:277-288 | a symbol of a text decodes to the text exactly when the text has no lone surrogate |
| `Encoder.TextsShareSymbolIff` | auth/flow-ui/qr.js:277-288 | two texts share a symbol exactly when they differ at most in lone surrogates |
| `Utf8.ScalarsRoundTrip` | auth/flow-ui/qr.js:278 | the bytes of any code points decode to them |
| `Utf8.TextRoundTrips` | auth/flow-ui/qr.js:278 | the bytes that TextEncoder makes of a text decode to the text with its lone surrogates replaced, and to the text itself exactly when it has none |
| `Utf8.EncodingsAgreeIff` | auth/flow-ui/qr.js:278 | two texts have the same bytes exactly when they are the same with lone surrogates replaced |
| `StreamTracker.UserWsStreamTracker.OnReady` | src/ui/api/userWsRecovery.ts:40-45 | ready starts the stream afresh; only the first one is initial |
| `StreamTracker.UserWsStreamTracker.OnEvent` | src/ui/api/userWsRecovery.ts:47-67 | delivery and resync verdict of one frame, and the state after it |
| `StreamTracker.DeliveredInOrder` | src/ui/api/userWsRecovery.ts:47-67 | whatever is dropped, repeated or reordered, delivered numbers strictly increase |
| `StreamTracker.NoSilentGap` | src/ui/api/userWsRecovery.ts:47-67 | every number passed over without delivery was announced by a resync verdict on a frame at or beyond it |
| `StreamTracker.GapIsReal` | src/ui/api/userWsRecovery.ts:62 | a gap verdict skips a number that is never delivered, before or after |
| `StreamTracker.OrderlyIffNoResync` | src/ui/api/userWsRecovery.ts:47-67 | no resync is returned exactly when no frame is more than one ahead and none that counts asks for one |
| `StreamTracker.NothingMissingSinceResync` | src/ui/api/userWsRecovery.ts:47-67 | for any frames of any epochs, what was delivered since the last resync verdict is consecutive and ends at the last number seen |
| `StreamTracker.CleanStreamIsComplete` | src/ui/api/userWsRecovery.ts:32-68 | with no resync verdict since ready, exactly the numbers up to the last one were delivered |
| `ResyncScheduler.Scheduler.Trigger` | src/ui/api/userWsRecovery.ts:93-111 | a trigger fires at once or joins the pending reason and sets the timer |
| `ResyncScheduler.Scheduler.TimerFires` | src/ui/api/userWsRecovery.ts:105-110 | the timer runs the pending reason |
| `ResyncScheduler.Scheduler.Cancel` | src/ui/api/userWsRecovery.ts:112-116 | cancel forgets timer and pending reason, but not the last run |
| `ResyncScheduler.RunsAreApart` | src/ui/api/userWsRecovery.ts:75-118 | any two resyncs are at least as many intervals apart as there are steps between them |
| `ResyncScheduler.WaitingIsPending` | src/ui/api/userWsRecovery.ts:97-111 | the pending reason is the join of the triggers since the last run, and a timer is set exactly while there are any |
| `ResyncScheduler.RunCoversItsTriggers` | src/ui/api/userWsRecovery.ts:87-111 | a resync stands for exactly the triggers since the run before it, under initial, then the first of gap, epoch_changed and resync_required, then reconnect |
| `ResyncScheduler.NoTriggerIsLost` | src/ui/api/userWsRecovery.ts:93-116 | every trigger is followed by a run or a cancellation, or a timer due within one interval still holds it |
| `ConnectionLoop.DelayBounds` | src/ui/api/userWsRecovery.ts:134-138 | a retry delay lies between half the capped exponential and all of it, and within 500 to 30000 ms |
| `ConnectionLoop.BackoffBounds` | src/ui/api/userWsRecovery.ts:134-138 | the exponential doubles with each failure up to the cap |
| `ConnectionLoop.UserWsConnection.OnResolved` | src/ui/api/useUserWebSocket.ts:206-222 | what each outcome of the URL resolution does |
| `ConnectionLoop.UserWsConnection.OnReadyFrame` | src/ui/api/useUserWebSocket.ts:235-245 | in the loop, ready restarts the stable timer |
| `ConnectionLoop.UserWsConnection.OnClose` | src/ui/api/useUserWebSocket.ts:256-271 | a close parks, probes or retries, by its code and whether ready was seen |
| `ConnectionLoop.UserWsConnection.OnProbed` | src/ui/api/useUserWebSocket.ts:195-204 | a refused probe parks, any other answer retries |
| `ConnectionLoop.UserWsConnection.ScheduleReconnect` | src/ui/api/useUserWebSocket.ts:180-189 | parks at twelve failures, otherwise counts one and waits |
| `ConnectionLoop.UserWsConnection.OnRetryTimer` | src/ui/api/useUserWebSocket.ts:188 | the reconnect timer connects |
| `ConnectionLoop.UserWsConnection.OnStableTimer` | src/ui/api/useUserWebSocket.ts:242 | the stable timer clears the failures |
| `ConnectionLoop.UserWsConnection.DoResume` | src/ui/api/useUserWebSocket.ts:275-281 | a parked loop resumes when visible, with a fresh count |
| `ConnectionLoop.UserWsConnection.DoStop` | src/ui/api/useUserWebSocket.ts:288-306 | in the loop, stop clears reconnect and stable timer and detaches the socket |
| `ConnectionLoop.AtMostOneActive` | src/ui/api/useUserWebSocket.ts:152-282 | in every run at most one of URL resolution, socket, auth probe and reconnect timer is outstanding, and none while parked |
| `ConnectionLoop.QuietIffNoUrl` | src/ui/api/useUserWebSocket.ts:206-222 | until stopped the loop has something outstanding or is parked, except exactly after an empty URL, which ends it for good |
| `ConnectionLoop.AtMost13Connects` | src/ui/api/useUserWebSocket.ts:180-189 | between resets there are at most 13 connects |
| `ConnectionLoop.ParksOnlyWhenExhausted` | src/ui/api/useUserWebSocket.ts:175-271 | a refusal parks at once; anything else only after 12 or 13 connects since the reset |
| `ConnectionLoop.RetriesAreDelayed` | src/ui/api/useUserWebSocket.ts:186-188 | every reconnect timer waits 500 to 30000 ms |
| `ConnectionLoop.StableIsEarned` | src/ui/api/useUserWebSocket.ts:241-242 | failures are cleared only by a socket still open that has been ready for 30 s |
| `ConnectionLoop.StoppedStartsNothing` | src/ui/api/useUserWebSocket.ts:288-306 | after stop nothing new is started |
| `ConnectionLoop.StoppedIsDetached` | src/ui/api/useUserWebSocket.ts:288-306 | after stop no socket, reconnect timer or stable timer is left |
| `UserWs.UserWsSession.constructor` | src/ui/api/useUserWebSocket.ts:90-127 | a session starts with a fresh loop, tracker and scheduler |
| `UserWs.UserWsSession.OnReadyMessage` | src/ui/api/useUserWebSocket.ts:235-245 | ready restarts the stable timer and the stream, and triggers an initial resync or a reconnect |
| `UserWs.UserWsSession.OnEventMessage` | src/ui/api/useUserWebSocket.ts:247-249 | an event is handed on as the tracker says, and a resync it asks for is triggered |
| `UserWs.UserWsSession.DoStop` | src/ui/api/useUserWebSocket.ts:288-306 | stop detaches the loop and cancels the pending resync |
| `UserWs.LoopIsRun` | src/ui/api/useUserWebSocket.ts:85-307 | within a session the loop goes through a run of the connection loop, so all of its results hold |
| `UserWs.SchedIsRun` | src/ui/api/useUserWebSocket.ts:117-127 | within a session the scheduler goes through a run of the scheduler, with the same resyncs, so all of its results hold |
| `UserWs.ResyncsAreApart` | src/ui/api/useUserWebSocket.ts:117-127 | any two resyncs of a session are at least as many seconds apart as there are resyncs from the one to the other |
| `UserWs.QuietIsComplete` | src/ui/api/useUserWebSocket.ts:229-250 | in every run, while no resync is pending the client has missed nothing since the last one that ran: the events handed on since carry consecutive numbers up to the last one seen |
| `UserWs.TriggerIsAnswered` | src/ui/api/useUserWebSocket.ts:117-127 | every ready and every sign of a miss is answered by a resync at or after it, unless the session is stopped, or one is due within a second of the last step |
| `UserWs.StoppedResyncsNothing` | src/ui/api/useUserWebSocket.ts:288-306 | once stopped a session runs no resync, whatever was pending |
| `PaneDeferral.PaneDeferrals.AllPanesHidden` | src/ui/api/paneDeferral.ts:56-64 | there is a pane for the conversation and every such pane is hidden |
| `PaneDeferral.PaneDeferrals.DeferIfHidden` | src/ui/api/paneDeferral.ts:91-99 | a chat tag whose panes are all hidden is recorded with the requests of every entry cached for the conversation then, merged into an earlier mark |
| `PaneDeferral.PaneDeferrals.NeedsCatchUp` | src/ui/api/paneDeferral.ts:107-121 | whether a pane must refetch, and what becomes of the mark |
| `PaneDeferral.MarksAreSpentByNewPages` | src/ui/api/paneDeferral.ts:107-121 | a mark disappears, other than by a reset, only when a request started after the last marked event has settled |
| `PaneDeferral.NoEventIsLost` | src/ui/api/paneDeferral.ts:87-121 | an event that was deferred still has its mark, or the page of a request started after it has settled in the cache, or the cache was reset |
| `PaneDeferral.AtMostOneCatchUp` | src/ui/api/paneDeferral.ts:101-121 | a mark causes at most one catch-up refetch while no new event arrives |
| `PaneDeferral.VisibleLookCatchesUp` | src/ui/components/workbench/paneVisibility.tsx:161-168 | a visible pane with a settled page either finds it newer than the mark, which is spent, or starts a newer request |
| `PaneDeferral.HiddenLookOnlyClears` | src/ui/api/paneDeferral.ts:107-121 | a hidden pane never refetches, and spends a mark only for a settled request outside it |
| `TokenUsage.TokenUsageRefresh.RetainView` | src/ui/api/chainTokenUsageRefresh.ts:39-47 | a new view counts as a viewer and takes the stale mark |
| `TokenUsage.TokenUsageRefresh.ReleaseView` | src/ui/api/chainTokenUsageRefresh.ts:46-59 | a release counts once; the last viewer's pending refresh becomes a stale mark |
| `TokenUsage.TokenUsageRefresh.RequestRefresh` | src/ui/api/chainTokenUsageRefresh.ts:68-80 | a request refreshes now, joins or sets the timer, or marks the chain stale |
| `TokenUsage.TokenUsageRefresh.TimerFires` | src/ui/api/chainTokenUsageRefresh.ts:80-85 | the trailing refresh |
| `TokenUsage.InvalidationsAreApart` | src/ui/api/chainTokenUsageRefresh.ts:68-86 | two invalidations of a chain are at least 15 s apart for every step between them |
| `TokenUsage.ViewsAndMarks` | src/ui/api/chainTokenUsageRefresh.ts:30-61 | stale chains are not viewed, a pending timer has a viewer, and a chain is viewed exactly while a view of it is retained, however often views are released |
| `TokenUsage.NoRequestIsLost` | src/ui/api/chainTokenUsageRefresh.ts:39-86 | every request is answered by a later invalidation, a new viewer told to refresh, a stale mark or a pending timer |
| `TokenUsage.TimersAreSoon` | src/ui/api/chainTokenUsageRefresh.ts:74-80 | a trailing refresh is due within one window of the request that set it |
| `InvalidationQueue.Queue.QueueInvalidation` | src/ui/api/wsInvalidation.ts:423-435 | tags with an id are merged per tag, and a timer is set |
| `InvalidationQueue.CollectCarries` | src/ui/api/wsInvalidation.ts:423-431 | the queue holds one entry per tag, with exactly the guards and unconditional calls contributed to it |
| `InvalidationQueue.FilterEchoes` | src/ui/api/wsInvalidation.ts:444-453 | the scan, which consumes echoes as it goes, keeps the same tags as if every guard were judged by the echoes noted at the start, at the one moment it is looked up |
| `InvalidationQueue.Queue.Flush` | src/ui/api/wsInvalidation.ts:437-457 | dispatched are exactly the due tags not hidden, each once; the hidden ones are deferred, and the queue is empty |
| `InvalidationQueue.FlushIsItsSpecification` | src/ui/api/wsInvalidation.ts:437-457 | the tags kept are exactly those with an unconditional contribution or a guard that is no fresh echo, each once |
| `InvalidationQueue.OrderIsIrrelevant` | src/ui/api/wsInvalidation.ts:437-457 | the order of contributions does not matter |
| `InvalidationQueue.SentOrMarked` | src/ui/api/wsInvalidation.ts:454-456 | a kept tag is dispatched or leaves a mark, never both, and all other marks stay as they were |
| `InvalidationQueue.Queue.Reset` | src/ui/api/wsInvalidation.ts:473-478 | a reset drops everything queued |
| `MessageEvents.EchoTable.NoteLocalMessageSent` | src/ui/api/conversationMessageEvents.ts:28-34 | noting an id drops the expired ones |
| `MessageEvents.EchoTable.ConsumeLocalMessageEcho` | src/ui/api/conversationMessageEvents.ts:38-43 | an id counts as an echo once, and only while fresh |
| `TaskLoader.TaskLoaders.AutoLoadTask` | src/ui/api/wsInvalidation.ts:266-280 | an event starts a fetch, or marks the one in flight |
| `TaskLoader.TaskLoaders.FetchSettled` | src/ui/api/wsInvalidation.ts:268-276 | a settled fetch is repeated when marked, and otherwise removed |
| `TaskLoader.OneFetchPerKey` | src/ui/api/wsInvalidation.ts:266-304 | per key at most one fetch is in flight |
| `TaskLoader.TableIsExact` | src/ui/api/wsInvalidation.ts:266-304 | a key is in the table exactly while a fetch runs, marked pending exactly while an event is unserved |
| `TaskLoader.EveryEventIsFetched` | src/ui/api/wsInvalidation.ts:266-304 | a task that shares its key with no other is fetched at or after each of its events, or will be |
| `TaskLoader.SharedKeyLosesEvents` | src/ui/api/wsInvalidation.ts:268-280 | two tasks that share a key lose events: the second is never fetched |
| `TaskLoader.ServedIffKeysAreDistinct` | src/ui/api/wsInvalidation.ts:266-304 | in all runs over a set of tasks every event is followed by a fetch of its own task, or will be, exactly when no two of the tasks share a key |
| `TaskLoader.ColonFreeKeysAreDistinct` | src/ui/api/wsInvalidation.ts:268 | keys are distinct as long as chain ids hold no colon |
| `TaskLoader.KeysCanCollide` | src/ui/api/wsInvalidation.ts:268 | two concrete tasks that share a key |
| `MessageEvents.ApplyReadReceipt` | src/ui/api/conversationMessageEvents.ts:62-75 | the copying variant marks exactly the affected rows, and gives the same array back exactly when nothing changed |
| `MessageEvents.ApplyReadReceiptToDraft` | src/ui/api/conversationMessageEvents.ts:78-87 | the in-place variant yields the same rows |
| `MessageEvents.EarlierIsTotal` | src/ui/api/conversationMessageEvents.ts:71-85 | the comparison of read times as text is a strict total order |
| `MessageEvents.ReceiptsEndAtLatest` | src/ui/api/conversationMessageEvents.ts:62-87 | after any receipts a row carries the latest of its own time and those of the receipts that name it |
| `MessageEvents.ReceiptsCommute` | src/ui/api/conversationMessageEvents.ts:62-87 | receipts may arrive in any order and any number of times: the rows come out the same |
| `MessageEvents.RefetchJoins` | src/ui/api/conversationMessageEvents.ts:111-126 | one refetch carries the older rows on to the new page's start, or drops them and reanchors exactly when there is a hole |
| `MessageEvents.DuplicateFreeIff` | src/ui/api/conversationMessageEvents.ts:111-126 | after a refetch that joins there are no duplicates exactly when the page did not start further back or nothing older is loaded |
| `MessageEvents.TranscriptIsContiguous` | src/ui/api/conversationMessageEvents.ts:98-126 | after any run of refetches and older loads, with pages of any size that start no further back while something older is loaded, the rows held are one stretch of the conversation, without duplicates, up to its newest row |
| `SearchScopes.NormalFormIsNormal` | src/ui/search/scopedSearchLogic.ts:74-82 | normal paths have forward, single slashes and none at the end but for the root |
| `SearchScopes.NormalStays` | src/ui/search/scopedSearchLogic.ts:74-82 | a normal path without spaces around it stays as it is |
| `SearchScopes.ContainmentIsAnOrder` | src/ui/search/scopedSearchLogic.ts:107-124 | containment on one bridge is a strict partial order |
| `SearchScopes.InsideIsSegmentPrefix` | src/ui/search/scopedSearchLogic.ts:120 | the prefix test says that one path's segments, split at slashes, go on from all of the other's |
| `SearchScopes.TestAgreesIff` | src/ui/search/scopedSearchLogic.ts:120 | between normal paths the prefix test agrees with containment of directories exactly when it is not asked about the root and an absolute path below it |
| `SearchScopes.SurvivorsNestIff` | src/ui/search/scopedSearchLogic.ts:90-147 | of two comparable survivors one still contains the other exactly when it is the root and the other an absolute path below it |
| `SearchScopes.RootContainsNothing` | src/ui/search/scopedSearchLogic.ts:120-134 | the root contains no other scope, because its path already ends in the slash that the test adds |
| `SearchScopes.RootReplacesNothing` | src/ui/search/scopedSearchLogic.ts:127-141 | a scope for the root, added last, takes the place of no other scope |
| `SearchScopes.RootAndRepoSurvive` | src/ui/search/scopedSearchLogic.ts:107-141 | of the root and /repo on one bridge both are searched, in either order, although one contains the other |
| `SearchScopes.DeduplicateSearchScopes` | src/ui/search/scopedSearchLogic.ts:90-147 | active and dropped scopes rearrange the input; the active ones are its survivors in order, and cover every dropped one |
| `SearchScopes.SurvivorsAreMinimal` | src/ui/search/scopedSearchLogic.ts:90-147 | the survivors are exactly the minimal elements: an antichain that covers every scope with a path, beside all scopes without one |
| `SearchScopes.OrderIsIrrelevant` | src/ui/search/scopedSearchLogic.ts:90-147 | the surviving bridges and paths do not depend on the order of the input |
| `SearchScopes.DeduplicateScopeResultsByRoot` | src/ui/search/scopedSearchLogic.ts:260-306 | the all-pairs pass keeps exactly the results whose id no beaten result has |
| `SearchScopes.WinnersAreMinimal` | src/ui/search/scopedSearchLogic.ts:260-306 | with unique ids the kept results are an antichain that covers every result with a root |
| `SearchScopes.CoverageIff` | src/ui/search/scopedSearchLogic.ts:260-306 | coverage holds exactly when no unbeaten result shares its id with a beaten one |
| `SearchScopes.RepeatedIdLosesAll` | src/ui/search/scopedSearchLogic.ts:282-303 | one id on a root and its subdirectory loses both |
| `ActivityRing.ActivityStore.AgentActionReceived` | src/ui/store/agentActivitySlice.ts:69-88 | an action is appended with its id, kind, summary and time, and the ring trimmed |
| `ActivityRing.ActivityStore.AgentActionSurfaced` | src/ui/store/agentActivitySlice.ts:94-107 | an id is remembered and the set pruned |
| `ActivityRing.ActivityStore.AgentActivityInstanceCleared` | src/ui/store/agentActivitySlice.ts:109-115 | an instance is forgotten |
| `ActivityRing.BufferIsLastFour` | src/ui/store/agentActivitySlice.ts:69-88 | the buffer is the last four actions received since the instance was cleared |
| `ActivityRing.IdsAreDistinct` | src/ui/store/agentActivitySlice.ts:74-77 | an id tells instance, time and count, whatever the instance contains |
| `ActivityRing.HistoryIdsAreDistinct` | src/ui/store/agentActivitySlice.ts:74-77 | no two actions of an instance have the same id |
| `ActivityRing.ShownIsExact` | src/ui/store/agentActivitySlice.ts:94-107 | an id is remembered exactly when it was surfaced and nothing was surfaced more than a window later since |
| `ActivityRing.SortFacts` | src/ui/store/agentActivitySlice.ts:136 | the sort orders by time, keeps every action, and keeps the order of those of one time |
| `ActivityRing.ReplayIsExact` | src/ui/store/agentActivitySlice.ts:126-137 | what is replayed is exactly the buffered actions inside the window that were not surfaced or whose surfacing is forgotten |
| `ActivityRing.SurfacedIsNeverReplayed` | src/ui/store/agentActivitySlice.ts:89-137 | a surfaced action is never replayed, when surfaced no earlier than it happened and the clock has reached the latest surfacing |
| `ActivityRing.ClockSkewReplays` | src/ui/store/agentActivitySlice.ts:102-107 | the clock condition is needed: an action stamped ahead makes a surfaced one come back |
| `Markdown.RenderItem` | src/ui/components/markdownRender.ts:261-296 | an item takes its line, its continuation lines and its nested lists, each line that is not blank once, and stops where the source stops |
| `Markdown.RenderList` | src/ui/components/markdownRender.ts:253-302 | returns after its start and within the lines, and renders every line that is not blank exactly once, in items of one kind and indent |
| `Markdown.RenderBlock` | src/ui/components/markdownRender.ts:309-375 | the block at a line is the first kind whose pattern applies, and takes exactly the lines that the kind says; a list stops only where nothing goes on its last item and no further item follows |
| `Markdown.RenderBlocks` | src/ui/components/markdownRender.ts:304-378 | the block loop ends on every list of lines, and its blocks follow each other with only blank lines between |
| `Markdown.TakenOnce` | src/ui/components/markdownRender.ts:304-378 | every line that is not blank is taken by exactly one block |
| `TableRow.SplitTableRow` | src/ui/components/markdownRender.ts:175-201 | the character loop splits a row as specified |
| `TableRow.FramedRowRoundTripsIff` | src/ui/components/markdownRender.ts:175-201 | a row written with outer pipes and escapes splits into its cells again exactly when they have no spaces around them, whatever else they hold |
| `TableRow.BareRowRoundTripsIff` | src/ui/components/markdownRender.ts:176-178 | without outer pipes it does so exactly when the cells have no spaces around them and the row is one empty cell, or both end cells are not empty and the last does not end in a pipe |
| `UrlTail.SplitUrlTail` | src/ui/components/markdownRender.ts:108-120 | the URL is the longest prefix before the first escaped bracket or quote that does not end in punctuation or an unbalanced parenthesis, and the tail is the rest |
| `UrlTail.CoreIsUnique` | src/ui/components/markdownRender.ts:108-120 | there is only one such prefix |
| `ToolStream.OrderIsTotal` | src/ui/store/toolActivitySlice.ts:79-83 | the comparison of epoch, generation and revision is a total order |
| `ToolStream.ToolActivityStream.OnSubscribe` | src/ui/api/toolActivityStream.ts:51-62 | a view is added, and another credential starts from nothing |
| `ToolStream.ToolActivityStream.OnUpdate` | src/ui/api/toolActivityStream.ts:64-69 | a known view changes its members |
| `ToolStream.ToolActivityStream.OnRelease` | src/ui/api/toolActivityStream.ts:70-74 | a known view goes away |
| `ToolStream.ToolActivityStream.DoReconcile` | src/ui/api/toolActivityStream.ts:87-109 | receipts follow the union of the views, none beyond the cap |
| `ToolStream.ToolActivityStream.DoDisconnect` | src/ui/api/toolActivityStream.ts:127-138 | a new generation without socket or deadlines |
| `ToolStream.ToolActivityStream.DoFailed` | src/ui/api/toolActivityStream.ts:140-149 | a failure counts against the budget, and exhausts it or sets the next retry |
| `ToolStream.ToolActivityStream.DoConnect` | src/ui/api/toolActivityStream.ts:151-160 | a connect under a new generation, with deadlines and rebased receipts |
| `ToolStream.ToolActivityStream.OnUrlResolved` | src/ui/api/toolActivityStream.ts:160-178 | a URL of the current generation makes the socket |
| `ToolStream.ToolActivityStream.OnSocketOpen` | src/ui/api/toolActivityStream.ts:163-168 | an open of the current generation subscribes |
| `ToolStream.ToolActivityStream.OnSocketEnd` | src/ui/api/toolActivityStream.ts:173-175 | a close or error of the current generation fails |
| `ToolStream.ToolActivityStream.OnMessage` | src/ui/api/toolActivityStream.ts:169-172 | only messages of the current socket are received |
| `ToolStream.ToolActivityStream.DoReceive` | src/ui/api/toolActivityStream.ts:181-221 | what each kind of frame does |
| `ToolStream.ToolActivityStream.OnTick` | src/ui/api/toolActivityStream.ts:223-248 | expiry, budget, deadlines, ping and reconnect, in the source's order |
| `ToolStream.ToolActivityStream.OnResume` | src/ui/api/toolActivityStream.ts:250-255 | a resume connects, within the budget |
| `ToolStream.ToolActivityStream.DoStop` | src/ui/api/toolActivityStream.ts:257-263 | stop renews the budget |
| `ToolStream.AtMostOneSocket` | src/ui/api/toolActivityStream.ts:127-179 | in every run at most one socket is live, and it is the stream's own |
| `ToolStream.LateCallbacksDoNothing` | src/ui/api/toolActivityStream.ts:155-178 | callbacks of older generations change none of the stream's fields and make nothing |
| `ToolStream.ExhaustedUntilStopped` | src/ui/api/toolActivityStream.ts:140-263 | once exhausted, no tick, resume or late answer makes a socket or brings the stream back until it is stopped |
| `ToolStream.BudgetRunsOut` | src/ui/api/toolActivityStream.ts:140-235 | 120 s after an outage began, with no accepted subscribed or state frame since, the next tick leaves the stream exhausted |
| `ToolStream.AcceptedGoesOn` | src/ui/api/toolActivityStream.ts:211-214 | an accepted state starts from a baseline or does not go back, and repeats an order only as refresh or baseline |
| `ToolStream.OrdersNeverGoBack` | src/ui/api/toolActivityStream.ts:158-221 | between two baselines the accepted orders of a member never go back |
| `ToolStream.RunFollowsViews` | src/ui/api/toolActivityStream.ts:51-109 | in every run there is one receipt for each member some view asks for, none beyond the cap, and the stream runs exactly while there is one |
| `ToolStream.RetriesWait` | src/ui/api/toolActivityStream.ts:140-149 | retries wait 1, 2, 4, 8 and 16 s; the cap of 30 s is never reached |

## Left out

- Encoder.QrMatrix: the error thrown for a text that is too long is the value None.
- Penalty.ShareInSteps: rounding is any function as accurate as double precision is here, not the format itself.
- Reader.RoundTrip: the reader needs an undamaged symbol; how much damage still determines the payload is stated by Damage.DamagedSymbolIdentifiesPayload, without an error-correcting decoder.
- StreamTracker.UserWsStreamTracker.OnEvent: stream numbers are whole numbers, as the hub sends them; the source accepts any finite number.
- UserWs.UserWsSession.OnReadyMessage: the connected status and the MCP worker refresh are not modelled.
- UserWs.UserWsSession.DoStop: heartbeat and pending-wait timer are not modelled.
- ConnectionLoop.UserWsConnection.OnReadyFrame: the loop's part alone; tracker and scheduler are added by UserWs.UserWsSession.OnReadyMessage, and the connected status is not modelled.
- ConnectionLoop.UserWsConnection.DoStop: the loop's part alone; the scheduler is added by UserWs.UserWsSession.DoStop, and heartbeat and pending-wait timer are not modelled.
- ConnectionLoop.UserWsConnection.OnClose: heartbeats, status dispatches, MCP worker calls and the sweep of stale queries after the first ready are not modelled; the auth probe always answers, as probeUserAuth does.
- PaneDeferral.NoEventIsLost: all panes of a conversation ask for its newest page with the same arguments, as AgentChatPane does; the query cache is an environment that starts, settles and drops requests, and settling covers success and error alike.
- PaneDeferral.PaneDeferrals.NeedsCatchUp: React effects are steps at which a pane looks; a pane whose query has no cache entry reports no request.
- TokenUsage.NoRequestIsLost: the reset hook of the module is not a step.
- InvalidationQueue.Queue.Flush: tags are compared as pairs of type and id, which the source joins with a NUL character; the dispatch itself is the returned list.
- TaskLoader.TaskLoaders.FetchSettled: what a fetched task patches in the caches is not modelled.
- MessageEvents.TranscriptIsContiguous: rows of the conversation all have ids, each its own; how far a page that starts further back breaks the transcript is stated for one refetch by MessageEvents.DuplicateFreeIff.
- ActivityRing.BufferIsLastFour: times are whole numbers written in decimal, and payload fields are already of their types.
- Markdown.RenderBlocks: what the line patterns match is an attribute of a line, and the rendered HTML and all inline markup are left out.
- SearchScopes.DeduplicateSearchScopes: globs, query transformation and grouping of matches in the same file are not modelled.
- ToolStream.ToolActivityStream.DoReceive: size limits, parsing and the check of a snapshot's fields decide between a frame and one that is ignored; epochs are numbers instead of decimal text.
- ToolStream.ToolActivityStream.OnTick: each callback reads the clock once, absent deadlines are None instead of zero, and dispatches to the store are left out; the views hold valid member ids only.
- The sources' numbers are mathematical integers, where the source's values stay far below 2^53.
- React components, network and storage, the endpoint modules and normalisers, vault and sign-in flows, and the release scripts are not part of this model.
