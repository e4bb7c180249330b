# Stulp controller: a verified model

Stulp is a home controller that keeps its whole state in one document with a single owner. The code
around that owner is bounded and deterministic, and this project models its hardest parts in Dafny and
proves what they promise over all inputs, runs and reachable states:

* **Flows.** Checking a canvas is a degree-counting cycle check; `runnable` is a reachability fixpoint;
  the executor is a breadth-first queue driven by card results; a run adds filters, delays, failures and
  a deadline on top (`Digraph`, `FlowGraph`, `FlowRunnable`, `FlowExecution`, `FlowExecutor`, `FlowRun`,
  `FlowRunner`, `FlowFilters`, `FlowAnswers`).
* **Storage.** Two alternating slots with generations and a CRC-32, and the file backend that poisons
  itself after an uncertain write (`Bytes`, `Crc32`, `SlotCodec`, `SlotHistory`, `SlotFiles`).
* **Media.** Frames shared by reference count between source groups and viewer queues, with viewers that
  drop until the next keyframe (`MediaDepot`, `MediaOwner`, `MediaBalance`, `MediaStream`,
  `MediaOrder`, `MediaBytes`, `MediaBounds`, `MediaService`).
* **App channel.** A bounded output queue, partial writes, length-prefixed frames and a decoder fed with
  arbitrary fragments (`FrameStream`, `FrameDecoder`, `AppChannel`).
* **Time.** Closed-form Gregorian conversions, transition lookup and yearly zone rules (`Calendar`,
  `Timezone`, `ZoneRules`).
* **Store.** Candidate first, then commit; a bounded event log with cursors; flow revisions and last-run
  stamps (`EventLog`, `StoreRecords`, `StoreHistory`, `StoreRevisions`, `StoreStamps`,
  `StoreEdits`, `StoreOwner`).
* **Pairing.** Sessions and pending device operations with deadlines and rollback (`PairingSteps`,
  `PairingHistory`, `PairingSessions`, `PairingRuns`, `PairingRequests`,
  `PairingAnswers`, `PairingOwner`).
* **HTTP hand-off.** One acceptor and eight workers on a cooperative core (`HandOff`, `HandOffRuns`,
  `HandOffOvertaking`, `HandOffServer`).
* **JSON.** The bounded parser, sound and complete against trees of concrete syntax (`JsonTree`,
  `JsonParse`, `JsonComplete`, `JsonSound`, `JsonUtf8`, `JsonTokens`,
  `JsonParser`).

Where the source changes fields, arrays or a cursor step by step, the model is a class or a method with
loops; each such method is tied to a function on values, and the lemmas about runs are stated on those
functions. Clocks, answers of apps and files, fresh ids and scheduling are parameters that range over
everything they could be. `dafny verify dfyconfig.toml` checks the project.

Findings where the code and what one would expect of it differ, each with a lemma that names the input
and one that says exactly when the property holds:

* A torn very first save without a legacy document can never be opened again
  (`SlotHistory.TornFirstSaveNeverOpens`, `SlotHistory.OpenReturnsRecent`).
* A spent image source that holds frames is dropped without releasing them
  (`MediaBalance.ImageFrameStays`, `MediaBalance.PruneExact`).
* A time stamp that cannot be read overwrites a later start (`StoreStamps.UnreadableStampLoses`,
  `StoreStamps.RunLatestExactly`). The only caller (crates/controller/src/flows.rs:461) passes readable stamps, so
  this is an input of the store's interface.
* A flow deleted and created again counts revisions from one, so an old revision slips through exactly when
  the writes since the flow came back number that revision; for every revision there is such a run, taken whenever
  its own documents fit (`StoreRevisions.RecreatedLooksCurrent`, `StoreRevisions.RecreationIsTaken`,
  `StoreRevisions.SlipsThroughExactly`).
* The acceptor's comment promises those who wait first; a newcomer overtakes them exactly when a worker
  became free since the acceptor last looked (`HandOffOvertaking.OvertakingHappens`,
  `HandOffRuns.NewcomerOvertakes`).
* A first frame over the greeting limit that fits the output queue is accepted by the sender, and the receiver
  refuses the stream exactly when the header of such a frame has arrived (`AppChannel.LargeGreetingRun`,
  `AppChannel.FramesArriveInOrder`).
* A zone rule is applied to the UTC year of the instant only, so the offset is wrong where a neighbouring year's
  switch decides, for example in the first hours of a year with daylight saving all year round
  (`ZoneRules.AllYearFails`, `ZoneRules.ExtensionRightExactly`).
* Settings that already hold are not sent to the app, so one that changes before the app answers is lost though
  the request succeeds (`PairingRequests.SettingOvertaken`, `PairingRequests.SettingsToAnswer`).
* The comment on replacing a device (crates/controller/src/pairing.rs:290-293) speaks of renewing its identity;
  the store refuses any change of it, so only a candidate with the same data is taken
  (`PairingRequests.NewIdentityRefused`, `PairingRequests.ReplacementAsked`).

## Model

| member | source | states |
|---|---|---|
| `FlowGraph.Validate` | crates/core/src/flow.rs:40-98 | A canvas is accepted exactly when it is well formed and its connections have no directed cycle; the cycle answer is given exactly for well-formed cyclic canvases, and the degree count never runs below zero |
| `FlowGraph.CheckCards` | crates/core/src/flow.rs:50-59 | Every card is complete and ids are distinct, or the fault of some card is reported |
| `FlowGraph.CountIncoming` | crates/core/src/flow.rs:60-78 | The counters equal the in-degrees of the graph exactly when all connections resolve, are distinct and avoid triggers and self loops |
| `FlowGraph.Peel` | crates/core/src/flow.rs:79-97 | Peeling off cards without predecessors ends with all cards seen exactly when there is no cycle |
| `FlowGraph.Release` | crates/core/src/flow.rs:89-95 | Removing a card lowers the counters to the in-degrees of what is left, without underflow |
| `FlowGraph.PeelStuck` | crates/core/src/flow.rs:80-83 | Getting stuck before all cards are seen means a directed cycle exists |
| `FlowGraph.PeelDone` | crates/core/src/flow.rs:79-97 | Seeing all cards yields a topological order, so no cycle exists |
| `FlowGraph.NodeIndex` | crates/core/src/flow.rs:32-38 | The first card with an id, or none when no card has it |
| `FlowGraph.TrimCuts` | crates/core/src/store.rs:423-425 | Trimming a name takes away all white space on both sides and nothing else |
| `FlowGraph.ArcsMeaning` | crates/core/src/flow.rs:61-63 | The arcs of the graph are exactly the connections whose two ends name cards |
| `FlowGraph.TriggersHaveNoPredecessor` | crates/core/src/flow.rs:67-69 | In a well-formed canvas no connection leads into a trigger |
| `FlowRunnable.IsRunnable` | crates/core/src/flow.rs:126-163 | Yes exactly when some action is reachable from some trigger along any number of connections |
| `FlowRunnable.MarkReachable` | crates/core/src/flow.rs:137-154 | As many relaxation rounds as there are cards mark exactly the reachable cards |
| `FlowRunnable.Relax` | crates/core/src/flow.rs:144-153 | One round keeps marks sound and extends them by all cards one connection further |
| `FlowRunnable.Shorten` | crates/core/src/flow.rs:143-154 | Any path can be cut to one without repeated cards, which is why n rounds suffice |
| `FlowExecution.AfterKeepsInv` | crates/core/src/flow.rs:166-256 | After any sequence of deliveries, completions and skips the queue, the visited marks and the delivered cards agree |
| `FlowExecution.DeliveredOnce` | crates/core/src/flow.rs:206-256 | No card is delivered twice in any run |
| `FlowExecution.QueueFits` | crates/core/src/flow.rs:244-254 | The queue never holds more entries than there are cards, hence at most 128, and never a trigger |
| `FlowExecution.RoomLeft` | crates/core/src/flow.rs:249-253 | A card not yet visited always finds a free place in the queue |
| `FlowExecution.DryRunDeliversReachable` | crates/core/src/flow.rs:176-256 | A run that is dry has delivered exactly the cards on a path from a started trigger whose earlier cards all completed and passed |
| `FlowExecution.UnlockedByCompletion` | crates/core/src/flow.rs:232-256 | A card opens its successors exactly when it was a start or completed with a passing result, inverted conditions included and skipped cards excluded |
| `FlowExecution.SuccessorsInOrder` | crates/core/src/flow.rs:243-254 | Of two new successors of a completed card, the one reached by an earlier connection is queued first |
| `FlowExecutor.Execution.StartMany` | crates/core/src/flow.rs:181-203 | Fails for an invalid canvas or an id that is no trigger, else starts in the state after all triggers |
| `FlowExecutor.Execution.NextCard` | crates/core/src/flow.rs:206-218 | Hands out the next queued card, nothing when dry, and refuses while a card is out |
| `FlowExecutor.Execution.SkipCard` | crates/core/src/flow.rs:222-229 | Ends the card without opening its successors |
| `FlowExecutor.Execution.CompleteCard` | crates/core/src/flow.rs:232-256 | Ends the card and queues its unvisited successors when it lets them run |
| `FlowExecutor.Execution.Finish` | crates/core/src/flow.rs:232-256 | The array state after completing a card is the specified one and the call never fails |
| `FlowRun.EveryRunKeepsInv` | crates/runtime/src/flows.rs:124-307 | Over every run of advance, complete and fail: a card waits exactly when the executor waits, results plus the card in flight equal the cards delivered, and both result lists stay within 128 |
| `FlowRun.DoneIsFinal` | crates/runtime/src/flows.rs:124-307 | Once a run is done no later call changes it |
| `FlowRun.DeadlineEnds` | crates/runtime/src/flows.rs:124-131 | Any advance at or past the deadline finishes the run |
| `FlowRun.DryFinish` | crates/runtime/src/flows.rs:145-148 | A run that finishes dry without failing has recorded exactly the reachable cards |
| `FlowRun.SelectSizes` | crates/runtime/src/flows.rs:35-52 | The condition and action results together are all results recorded |
| `FlowRun.AdvanceKeepsInv` | crates/runtime/src/flows.rs:124-214 | Each advance keeps the run invariant, through waking, filters, dispatch and finishing |
| `FlowRun.AnswerKeepsInv` | crates/runtime/src/flows.rs:215-265 | Each completion keeps it, for filters, conditions, actions and answers of the wrong type |
| `FlowRun.FailKeepsInv` | crates/runtime/src/flows.rs:266-288 | Each failure keeps it |
| `FlowRunner.Run.Manual` | crates/runtime/src/flows.rs:56-91 | A manual run starts all triggers of a valid canvas and satisfies the run invariant |
| `FlowRunner.Run.Triggered` | crates/runtime/src/flow_triggers.rs:142-194 | A run starts exactly for an enabled valid canvas with something selected and no fault, with the matched ids and the filters of the canvas; nothing starts exactly when disabled or nothing is selected |
| `FlowRunner.Run.Choose` | crates/runtime/src/flow_triggers.rs:154-184 | The matched ids and the filters with their steps, in canvas order, or a fault exactly when some trigger is faulty |
| `FlowFilters.FiltersInOrder` | crates/runtime/src/flow_triggers.rs:195-234 | In every run the filters are taken in list order and none is skipped, each reply answers the question before it, and the triggers started are exactly those matched and those whose app said yes |
| `FlowFilters.AskedIsPrefix` | crates/runtime/src/flow_triggers.rs:199-226 | As long as no argument fails, the ids asked in a run are a prefix of the list it began with |
| `FlowAnswers.RunHears` | crates/runtime/src/flows.rs:124-307 | In every run the results are those of the reports heard, one for one and in order, and stay in step with what the cards opened, also once the run is over |
| `FlowAnswers.AnswersDecide` | crates/runtime/src/flows.rs:215-261 | From the calls alone: each recorded result is that of the card delivered at its place, a condition's being its answer against "inverted", and besides the triggers exactly the cards whose report lets them have opened their successors |
| `FlowAnswers.ConditionDecides` | crates/runtime/src/flows.rs:237-255 | After any calls, the boolean a callback gives for the condition in flight records whether it differs from "inverted" and opens the card's successors exactly when it does; otherwise nothing is queued |
| `FlowAnswers.BuiltInDecides` | crates/runtime/src/flows.rs:193-196 | The same for a condition the controller answers itself in the turn that hands it out |
| `FlowAnswers.EndReason` | crates/runtime/src/flows.rs:215-307 | A call ends a run with exactly the reason it has for it (time-out, wrong answer, failure, stop); a run that ends dry reports the first failure among its results |
| `FlowAnswers.DelayPasses` | crates/runtime/src/flows.rs:133-138 | A delay of d handed out at a moment is left alone by every turn before that moment plus d, and the first one from then on records it as done and opens its successors |
| `FlowAnswers.CallsOwnApp` | crates/runtime/src/flows.rs:166-214 | The app a turn calls is that of the filter it asks or of the card just delivered, or the one the store names for a built-in action |
| `FlowRunner.Run.Proceed` | crates/runtime/src/flow_triggers.rs:227-234 | After the last filter the execution is replaced by one with all matched triggers, or the run ends |
| `FlowRunner.Run.Advance` | crates/runtime/src/flows.rs:124-164 | At most one card leaves the executor per turn, as the step on values says |
| `FlowRunner.Run.Deliver` | crates/runtime/src/flows.rs:145-164 | Takes the next card of the executor and dispatches it, or finishes |
| `FlowRunner.Run.Dispatch` | crates/runtime/src/flows.rs:166-214 | Built-in conditions answer at once, delays set the wake time and hold the card, apps are called, and a fault fails the card only |
| `FlowRunner.Run.Complete` | crates/runtime/src/flows.rs:215-265 | An answer is recorded once and moves the executor, by the step whose results `FlowAnswers` reads off the calls, or is refused exactly when nothing waits |
| `FlowRunner.Run.Fail` | crates/runtime/src/flows.rs:266-288 | The failure is recorded and the card skipped |
| `FlowRunner.Run.Stop` | crates/runtime/src/flows.rs:289-307 | The run ends with the message and its card recorded |
| `FlowRunner.Run.Conclude` | crates/runtime/src/flows.rs:310-330 | A result exists exactly for a finished run |
| `Crc32.Update` | crates/core/src/slots.rs:27-36 | The nested byte and bit loops compute the register function |
| `Crc32.ChecksumOf` | crates/core/src/slots.rs:38-41 | Prefix and payload are summed as one stream and complemented |
| `Crc32.CrcInjective` | crates/core/src/slots.rs:27-36 | Feeding the same bytes into different registers never makes them equal |
| `Crc32.CrcAsShift` | crates/core/src/slots.rs:27-36 | Feeding bytes is one exclusive-or with the number they spell followed by shifts |
| `Crc32.BurstDetected` | crates/core/src/slots.rs:27-41 | A change inside any four neighbouring bytes always changes the register |
| `SlotCodec.SlotOctets` | crates/core/src/slots.rs:43-62 | A slot is the magic, then generation, length and checksum octet by octet with the lowest first, then the payload |
| `SlotCodec.RoundTrip` | crates/core/src/slots.rs:43-84 | Decoding an encoding returns its generation and payload |
| `SlotCodec.StrictPrefixRejected` | crates/core/src/slots.rs:65-84 | No strict prefix of an encoding decodes |
| `SlotCodec.AlteredByteRejected` | crates/core/src/slots.rs:65-84 | No encoding with exactly one byte altered decodes |
| `SlotCodec.BurstRejected` | crates/core/src/slots.rs:65-84 | Nor does one altered inside four neighbouring bytes on one side of the payload's start |
| `SlotHistory.HistoryKeepsInv` | crates/core/src/slots.rs:87-207 | After any saves, crashes and reopens the base slot holds the last stored record and the other one nothing newer than an attempt |
| `SlotHistory.OpenReturnsRecent` | crates/core/src/slots.rs:87-177 | Opening returns the last stored payload or one attempted since, never an older one or a conflict, and fails exactly after a torn first save |
| `SlotHistory.DurableSaveSurvives` | crates/core/src/slots.rs:183-206 | A save reported as done is what any number of opens return until the next save |
| `SlotHistory.OpensOnceStored` | crates/core/src/slots.rs:87-177 | With a legacy document or one stored save, storage always opens |
| `SlotHistory.TornFirstSaveNeverOpens` | crates/core/src/slots.rs:87-132 | A torn first save without a legacy document fails to open for ever |
| `SlotFiles.Backend.Read` | crates/hopos/src/storage.rs:89-119 | Succeeds exactly for an owner without doubts, an available file within the limit and reads that each return something of their chunk; then the chunks are the whole file, and any doubt poisons the owner |
| `SlotFiles.Backend.Write` | crates/hopos/src/storage.rs:121-147 | Succeeds exactly for a slot file within the limit, an owner without doubts and calls that all succeed, and then the slot holds all bytes; a failure leaves the old file or a prefix and poisons the owner |
| `SlotFiles.FullReadsSucceed` | crates/hopos/src/storage.rs:104-117 | Reads served in full chunks, the last one in part, reach the end of a file of any size |
| `SlotFiles.Files.Open` | crates/core/src/slots.rs:152-177 | Opening is the choice between the slots, and the legacy file counts only without a valid slot; with readable files it succeeds exactly when there is something to choose |
| `SlotFiles.Files.Save` | crates/core/src/slots.rs:183-206 | A save is one step of the history, done exactly when the record can be encoded and every call on an owner without doubts succeeds; when it could not be done the backend is poisoned |
| `MediaBalance.RunKeepsInv` | crates/plugin-host/src/media.rs:319-418 | Over every run without frames for image sources, reference counts and bytes are true |
| `MediaBalance.CountsAreTrue` | crates/plugin-host/src/media.rs:113-170 | Each stored frame's count equals its occurrences in groups and queues, bytes equal the sum of sizes and stay within 32 MiB, and with nothing attached the depot is empty |
| `MediaBalance.StepKeepsInv` | crates/plugin-host/src/media.rs:325-418 | Each command, viewer request, write and reaping keeps the balance |
| `MediaBalance.ArriveHolds` | crates/plugin-host/src/media.rs:374-415 | A frame is stored, listed, offered and let go with the counts in balance, also when the depot is full |
| `MediaBalance.CloseHolds` | crates/plugin-host/src/media.rs:325-337 | Closing a source releases what it and its viewers held |
| `MediaBalance.PruneExact` | crates/plugin-host/src/media.rs:496-497 | Dropping spent images keeps the counts true exactly when none of them holds a frame |
| `MediaBalance.SpentImageLeaks` | crates/plugin-host/src/media.rs:496-497 | A spent image that holds a frame breaks the balance when it is dropped |
| `MediaBalance.ImageFrameStays` | crates/plugin-host/src/media.rs:496-497 | For every id, token and frame that fits a group, a run of six steps after which the frame stays stored with nobody to release it |
| `MediaDepot.PutBalanced` | crates/plugin-host/src/media.rs:126-141 | Storing a frame gives it one reference and adds its size |
| `MediaDepot.RetainBalanced` | crates/plugin-host/src/media.rs:142-153 | Retaining adds one holder |
| `MediaDepot.ReleaseBalanced` | crates/plugin-host/src/media.rs:154-162 | Releasing takes one holder away and the frame with the last one |
| `MediaDepot.NothingHeld` | crates/plugin-host/src/media.rs:113-170 | A depot nobody holds anything in is empty |
| `MediaBytes.StoredAsSent` | crates/plugin-host/src/media.rs:126-162 | In every run each stored frame holds the bytes that were sent when it got its id |
| `MediaBytes.ViewerGetsWhatWasSent` | crates/plugin-host/src/media.rs:374-411 | Whatever a viewer has still to be sent is stored under its id with the bytes its source sent |
| `MediaBounds.GroupsStayBounded` | crates/plugin-host/src/media.rs:382-410 | In every run the byte count of a group is the size of its frames as they were sent, at most 8 MiB in at most 512 frames, and no queue holds more than 512 |
| `MediaStream.RunKeepsTale` | crates/plugin-host/src/media.rs:309-411 | Over every run with fresh source ids, groups are the tails of what their sources sent since a keyframe and viewers are up to date or waiting for one |
| `MediaOrder.ViewerSeesRuns` | crates/plugin-host/src/media.rs:374-411 | Every frame a viewer was sent is a keyframe of its source or follows the frame sent before it, and the runs come in source order with no frame sent twice |
| `MediaOrder.RunInOrder` | crates/plugin-host/src/media.rs:309-411 | Over every run the frames queued for a viewer rise strictly and none is newer than the last one stored |
| `MediaStream.GroupTakes` | crates/plugin-host/src/media.rs:382-399 | A group starts at a keyframe and grows with its source, or is given up |
| `MediaStream.OfferKeepsView` | crates/plugin-host/src/media.rs:400-410 | A viewer that dropped a frame takes nothing until the next keyframe |
| `MediaService.Store.PutFrame` | crates/plugin-host/src/media.rs:126-141 | The frames and the byte count become the balanced depot with the new frame, or nothing changes when bytes or places run out |
| `MediaService.Store.ReleaseFrame` | crates/plugin-host/src/media.rs:154-162 | One holder less; with the last holder the frame and its bytes are gone and the rest stays stored |
| `MediaService.Owner.CloseSource` | crates/plugin-host/src/media.rs:325-337 | The loop that swaps viewers out while it runs misses none, and source, group and queues are released |
| `MediaService.Owner.Frame` | crates/plugin-host/src/media.rs:374-415 | A frame reaches its group and viewers or closes its source, exactly as the balanced step on values, and is taken exactly when its source is known and the depot has room |
| `MediaService.Owner.Join` | crates/plugin-host/src/media.rs:289-315 | A viewer is seeded with the whole group of its source and counts as up to date, or waits for a keyframe |
| `MediaService.Owner.PruneImages` | crates/plugin-host/src/media.rs:496-497 | Sources that are spent images are dropped |
| `FrameStream.FrameOctets` | crates/protocol/src/lib.rs:186-198 | A frame begins with the four octets of its body's length, the highest first |
| `FrameStream.DrainConcat` | crates/protocol/src/lib.rs:46-87 | Decoding a stream in two parts gives the frames and remainder of decoding it at once |
| `FrameStream.PrefixDrains` | crates/protocol/src/lib.rs:46-87 | Every prefix of a framed stream decodes to a prefix of the frames, across the greeting switch |
| `FrameDecoder.Decoder.Feed` | crates/protocol/src/lib.rs:46-78 | Holds what it had plus what it took, makes progress, and fails exactly on a bad length |
| `FrameDecoder.Decoder.Take` | crates/protocol/src/lib.rs:80-88 | A frame comes out exactly when it is complete, and the decoder is empty again |
| `FrameDecoder.Receiver.Consume` | crates/hopos/src/apps.rs:401-416 | Whatever the fragments, the frames received are those of the whole stream |
| `FrameDecoder.Receiver.Turn` | crates/hopos/src/apps.rs:401-416 | One feed and take makes progress and keeps that |
| `AppChannel.ChannelKeepsInv` | crates/hopos/src/apps.rs:348-462 | Over every run the bytes queued, in flight and received are those of the frames sent, and `queued` equals the bytes held |
| `AppChannel.FramesArriveInOrder` | crates/hopos/src/apps.rs:401-462 | In every run the frames received are a prefix of the frames sent, the stream is refused exactly when the header of a first frame over the greeting limit has arrived, and once all has arrived all frames are received exactly without such a frame |
| `AppChannel.LargeGreetingRefused` | crates/hopos/src/apps.rs:142-152 | In every run that begins by queueing a large greeting that fits the queue, no frame is ever received and the fourth byte read refuses the stream |
| `AppChannel.LargeGreetingRun` | crates/hopos/src/apps.rs:348-356 | A run of three steps in which the sender accepts and writes such a greeting and the receiver refuses it |
| `AppChannel.Connection.Queue` | crates/hopos/src/apps.rs:348-356 | A packet is queued exactly when bytes and packets stay within bounds |
| `AppChannel.Connection.Flush` | crates/hopos/src/apps.rs:439-462 | The sender is that of the socket's answers up to the first that takes nothing, at most 64; it fails exactly when that one is broken or wrote zero bytes; what was written are those answers' bytes, and with what is kept they are what was there |
| `AppChannel.FullWriteLeaves` | crates/hopos/src/apps.rs:449-456 | A packet whose rest is taken in full leaves the queue and the byte count; a shorter write moves only the offset |
| `AppChannel.WideSocketEmpties` | crates/hopos/src/apps.rs:439-462 | A socket that takes all it is offered empties the queue in one flush, a round for each packet, and everything is sent |
| `AppChannel.FlushIsRun` | crates/hopos/src/apps.rs:439-462 | A flush is a stretch of a run of the channel, so what holds of every run holds after it |
| `Calendar.MidnightCountsDays` | crates/runtime/src/calendar.rs:39-49 | Midnight is 86400 times the number of days stepped one at a time from 1970-01-01 |
| `Calendar.MidnightRefuses` | crates/runtime/src/calendar.rs:39-42 | Exactly the dates of years 1 to 9999 have a midnight |
| `Calendar.CivilInverts` | crates/runtime/src/calendar.rs:51-74 | Splitting an instant names the minute it lies in and fails exactly outside the range |
| `Calendar.CivilOfMidnight` | crates/runtime/src/calendar.rs:51-74 | Every minute of every date in range is split back into itself |
| `Calendar.SameMinute` | crates/runtime/src/calendar.rs:51-74 | Equal dates and minutes under one offset mean the same minute |
| `Calendar.DateOfCorrect` | crates/runtime/src/calendar.rs:53-62 | Every day number has a valid date with that day number |
| `Calendar.DateOfDayNumber` | crates/runtime/src/calendar.rs:39-66 | Every valid date is recovered from its day number |
| `Timezone.Load` | crates/controller/src/timezone.rs:70-83 | Transitions are taken over exactly when they are increasing, known and not too many |
| `Timezone.PartitionPoint` | crates/controller/src/timezone.rs:116 | Halving finds the number of transitions a scan finds |
| `Timezone.LastInForce` | crates/controller/src/timezone.rs:106-126 | That number splits the table into those at or before the instant and those after it |
| `Timezone.Offset` | crates/controller/src/timezone.rs:106-126 | The binary search gives the offset of the scan, or that of the extension behind the table |
| `ZoneRules.TableInForce` | crates/controller/src/timezone.rs:115-125 | Inside the table the offset is that of the last transition at or before the instant |
| `ZoneRules.BeforeTable` | crates/controller/src/timezone.rs:115-125 | Before the first transition the offset is that of the first zone |
| `ZoneRules.FirstZoneIs` | crates/controller/src/timezone.rs:127-141 | The first zone is 0 unless used, then the nearest standard zone below a first daylight zone, else the first standard zone, else 0 |
| `ZoneRules.DaylightByLatest` | crates/controller/src/timezone.rs:221-234 | Daylight saving, by the latest switch over all years, is decided by the switches of the year, the two before and the one after |
| `ZoneRules.StandardMeans` | crates/controller/src/timezone.rs:221-234 | Standard time is in force exactly when the latest switch over all years is an end |
| `ZoneRules.ExtensionRightExactly` | crates/controller/src/timezone.rs:221-234 | The offset given is the one in force exactly when the neighbouring years agree with the own year, or both offsets are equal |
| `ZoneRules.OrdinaryZoneRight` | crates/controller/src/timezone.rs:221-234 | It is right at every instant for zones whose switches lie in their own year in the same order every year |
| `ZoneRules.AllYearFails` | crates/controller/src/timezone.rs:225-233 | One hour into 2001 in a zone with daylight saving all year round the standard offset is given |
| `Timezone.MonthRuleDate` | crates/controller/src/timezone.rs:244-252 | A month rule falls in its month on its weekday, in the week asked for, week 5 being the last |
| `Timezone.JulianRuleDate` | crates/controller/src/timezone.rs:240-242 | A Julian rule names the same month and day in every year and never 29 February |
| `Timezone.DayRuleDate` | crates/controller/src/timezone.rs:243 | A day-of-year rule counts days from 1 January, leap day included |
| `Timezone.RuleAtDate` | crates/controller/src/timezone.rs:236-255 | The switching instant is local midnight of that date plus the rule's time, in the old offset |
| `EventLog.EventsAfterExact` | crates/core/src/store.rs:275-285 | A reader gets exactly the events after its cursor, or is told it lost some |
| `EventLog.ReaderSeesEachOnce` | crates/hopos/src/server.rs:387-415 | Over every interleaving of publishing, reloading and polling a reader sees each event once and in order |
| `EventLog.SlowReaderKeepsUp` | crates/core/src/store.rs:275-303 | Up to 64 events between polls lose nothing, more are reported as lost |
| `EventLog.PublishAllTied` | crates/core/src/store.rs:296-303 | The log stays consecutive, ends at the sequence number and holds at most 64 |
| `StoreRecords.PlanRevises` | crates/core/src/store.rs:338-399 | No mutation touches a flow without raising its revision by one |
| `StoreRecords.PlanKeepsUnique` | crates/core/src/store.rs:812-838 | Flow ids stay distinct under every mutation |
| `StoreRecords.UninstallStops` | crates/core/src/store.rs:840-856 | After removing an app nothing of it is left and everything else is, flows that named it or its devices anywhere are disabled under the next revision with cards and contents kept, and the others unchanged |
| `StoreRecords.MentionsMeans` | crates/core/src/store.rs:858-876 | The walk through a value finds an app exactly when some object inside it, at any depth, names the app or one of its devices |
| `StoreRecords.Find` | crates/core/src/document.rs:89-94 | The first record with an id, or none when no record has it |
| `StoreHistory.FailureChangesNothing` | crates/core/src/store.rs:305-311 | A refused mutation leaves document, log and owner alone, even when its write was torn |
| `StoreHistory.SuccessIsStored` | crates/core/src/store.rs:305-311 | Each success leaves the active slot equal to the encoded document, which is what opening returns |
| `StoreHistory.EveryRunKeepsInv` | crates/core/src/store.rs:275-335 | Over every run log, slots and document stay in step, whatever saves fail or tear |
| `StoreHistory.RevisionCountsWrites` | crates/core/src/store.rs:338-399 | Between creation and deletion a revision grows by one with each write of the flow |
| `StoreRevisions.RevisionIsAge` | crates/core/src/store.rs:366-373 | In every run, deletions and restores included, the revision of a present flow is its age: one on creation, the archive's on restore, one more per write |
| `StoreRevisions.StaleExactlyWhenWritten` | crates/core/src/store.rs:363-365 | A put carrying a revision is stale exactly when the flow is there and has another age; while it was never gone nor restored, exactly when something wrote it since |
| `StoreRevisions.SlipsThroughExactly` | crates/core/src/store.rs:363-373 | A put overtaken by a write passes every check exactly when the flow was gone or restored in between and its age equals the revision read, below the limit |
| `StoreRevisions.RecreatedLooksCurrent` | crates/core/src/store.rs:363-373 | For every revision, once deletion, creation and that many writes were taken, the old revision passes every check |
| `StoreRevisions.RecreationIsTaken` | crates/core/src/store.rs:305-390 | With a valid canvas, room in the counters and texts of this run that fit, each of those steps is taken |
| `StoreHistory.PutIsExclusive` | crates/core/src/store.rs:363-390 | A put that succeeds saw no other write and makes its own revision stale |
| `StoreEdits.PutStores` | crates/core/src/store.rs:366-388 | After a put that was taken the flow is the request's with its name trimmed, updated now; creation, last run and last error are the old ones where there were any; every other record is unchanged |
| `StoreEdits.EditLasts` | crates/core/src/store.rs:338-399 | An edit is still there after any run in which nobody edits the flow, whatever reports, failed saves and changes elsewhere it holds; only removing an app can switch the flow off |
| `StoreEdits.ReportStores` | crates/core/src/store.rs:606-623 | A report leaves its start, its error and the moment in the flow and nothing else, and changes nothing exactly when a later start is there |
| `StoreEdits.RewriteStores` | crates/core/src/store/references.rs:193-240 | A rewrite gives each flow the cards and contents of its change, under a new revision exactly when these differ, and keeps its history |
| `StoreEdits.DeleteStores` | crates/core/src/store.rs:515-536 | A deletion removes the flow and nothing else |
| `StoreEdits.WriteIsTold` | crates/core/src/store.rs:287-311 | Each put, deletion and report that was written tells readers once, under the next number, what happened to which flow |
| `StoreStamps.RunSettles` | crates/core/src/store.rs:606-623 | The last-run stamp after any run is the settlement of the reports it accepted |
| `StoreStamps.LastRunIsLatest` | crates/core/src/store.rs:606-623 | Whatever the order of readable reports, the stamp is the latest start |
| `StoreStamps.LatestAfterUnreadable` | crates/core/src/json.rs:140-148 | Exactly when the latest start still wins after an unreadable stamp |
| `StoreStamps.RunLatestExactly` | crates/core/src/store.rs:606-623 | Over runs with an unreadable stamp among the reports, exactly when the flow still ends with the latest start |
| `StoreStamps.UnreadableStampLoses` | crates/core/src/json.rs:140-148 | For any readable start followed by an unreadable stamp and an earlier start, a run of three reports that are taken ends with the earlier start |
| `StoreOwner.Store.EventsAfter` | crates/core/src/store.rs:275-285 | The filter over the log returns the events the specification names |
| `StoreOwner.Store.Publish` | crates/core/src/store.rs:296-303 | The log drops its oldest event only when 64 are held |
| `StoreOwner.Store.Commit` | crates/core/src/store.rs:305-311 | Document and log change only after storage took the candidate |
| `StoreOwner.Store.Put` | crates/core/src/store.rs:338-399 | Existence, revision, canvas and capacity are checked before anything is written, and success is the committed candidate, whose fields `StoreEdits.PutStores` states |
| `StoreOwner.Store.FlowResult` | crates/core/src/store.rs:606-623 | A run is recorded unless a later start already is |
| `StoreOwner.Store.Uninstall` | crates/core/src/store.rs:840-856 | The loops over flows and devices give the specified document, or nothing when a revision cannot grow |
| `StoreOwner.Store.RemoveApp` | crates/core/src/store.rs:515-538 | The app, its devices and its settings go and its flows stop in one commit, or nothing changes |
| `PairingHistory.ServeKeepsInv` | crates/controller/src/pairing.rs:103-407 | Every request keeps owners and devices distinct, both bounds and one answer per request |
| `PairingHistory.CompleteKeepsInv` | crates/controller/src/pairing.rs:410-476 | Every completion keeps them, also when a device moves on to its second call |
| `PairingHistory.PollKeepsInv` | crates/controller/src/pairing.rs:555-572 | Polling ends with nothing overdue and answers exactly what it takes off the table |
| `PairingSteps.ExpiredShrinks` | crates/controller/src/pairing.rs:555-572 | An expired operation leaves the table and is answered, so polling terminates |
| `PairingRuns.EveryRunKeepsInv` | crates/controller/src/pairing.rs:103-572 | Over every run with fresh ids all of this holds, session ids stay distinct, and no device whose failed start was undone comes back |
| `PairingRuns.AnsweredExactlyOnce` | crates/controller/src/pairing.rs:410-476 | A request is answered at most once, not while it waits, and is answered once it no longer waits |
| `PairingRuns.SweepAnswersAll` | crates/controller/src/pairing.rs:555-572 | Past all deadlines a sweep answers everything that waits |
| `PairingRuns.LeftoverIsReported` | crates/controller/src/pairing.rs:433-441 | A failed new device stays in the store only when its removal failed, and then the answer is 503 for a storage fault and 502 for any other |
| `PairingRuns.CompleteDevices` | crates/controller/src/pairing.rs:433-555 | A completion removes a device only for a deletion or a failed new device |
| `PairingSessions.ClosedIsGone` | crates/controller/src/pairing.rs:230-250 | Closing a session removes it and no other, whatever the app says |
| `PairingRuns.ClosedStaysGone` | crates/controller/src/pairing.rs:198-250 | A closed session never comes back in any later run |
| `PairingRequests.SettingsSent` | crates/controller/src/pairing.rs:127-133 | Exactly the wanted settings the record lacks are sent, and merging them is merging all |
| `PairingRequests.SettingsToAnswer` | crates/controller/src/pairing.rs:526-545 | From request to answer the sent settings are merged into the newest record; every wanted setting holds exactly when those not sent still hold |
| `PairingRequests.SettingOvertaken` | crates/controller/src/pairing.rs:127-133 | A run in which a wanted setting changes before the app answers and the request still succeeds |
| `PairingRequests.RemovalAsked` | crates/controller/src/pairing.rs:158-197 | A device is gone at once exactly when answered 200: a scene's, or one whose app is missing or refuses |
| `PairingRequests.RemovalToAnswer` | crates/controller/src/pairing.rs:485-493 | Whatever happens meanwhile, the app's answer, good or bad, removes the device, and the answer is 200 exactly when it was there and the store took it |
| `PairingRequests.ReplacementAsked` | crates/controller/src/pairing.rs:295-353 | A replacement renews what the app keeps exactly for the same hardware, a free device and a willing store |
| `PairingRequests.NewIdentityRefused` | crates/core/src/store.rs:461-471 | A replacement with other data changes nothing and is answered with an error |
| `PairingRequests.AdditionAsked` | crates/controller/src/pairing.rs:355-404 | A new device is in the store from the moment its start is asked for, which happens exactly when it is valid, new, taken by the store and its app can be called; known hardware is answered 201, or 409 while it starts; otherwise nothing is left unless the store refuses |
| `PairingRequests.StartsStayStored` | crates/controller/src/pairing.rs:355-441 | Over every run a device whose start is waited for is in the store |
| `PairingAnswers.StartAsked` | crates/controller/src/pairing.rs:198-229 | A start waits at the app exactly when the driver exists and there is room; otherwise it is refused and nothing changes |
| `PairingAnswers.StartToAnswer` | crates/controller/src/pairing.rs:500-525 | Whatever happens meanwhile, a start ends with a session under its new id for its app and driver and 201 exactly when the app's answer is good; a failure, a malformed answer or the deadline opens nothing and is 502 |
| `PairingAnswers.SweepOpensNothing` | crates/controller/src/pairing.rs:555-572 | No deadline opens a session |
| `PairingAnswers.SessionStays` | crates/controller/src/pairing.rs:198-280 | A session stays open, for the same app and driver, over every run in which nobody closes it |
| `PairingAnswers.EmitReaches` | crates/controller/src/pairing.rs:251-280 | Once opened, an event for the session is sent to the app after every such run unless it is invalid, the call is refused or the table is full |
| `PairingAnswers.CloseAsked` | crates/controller/src/pairing.rs:230-250 | A close waits for the app when a session is open and the app can be told, and is answered 200 at once otherwise |
| `PairingAnswers.CallEnds` | crates/controller/src/pairing.rs:494-546 | Closing is answered 200 whatever the app says, an event 200 or 502 |
| `PairingAnswers.AdditionToAnswer` | crates/controller/src/pairing.rs:355-476 | A new device is answered 201 exactly by the second good answer of its app while it is stored; after the first one the second call is made; any failure takes it out again unless the store refuses |
| `PairingAnswers.WaitsItsTime` | crates/controller/src/pairing.rs:70-92 | An operation waits for the time the app is given and one second more: no sweep before that ends it, every sweep from then on does |
| `PairingOwner.Pairing.Push` | crates/controller/src/pairing.rs:70-92 | A call takes the next owner number, so numbers stay distinct, and a deadline one second past the time-out; a full table or a refusing app changes nothing |
| `PairingOwner.Pairing.DeviceBusy` | crates/controller/src/pairing.rs:93-101 | A device is busy exactly when a pending operation names it |
| `PairingOwner.Pairing.Ask` | crates/controller/src/pairing.rs:103-407 | Any request keeps distinct owners and devices, both bounds, and each accepted request waiting or answered exactly once |
| `PairingOwner.Pairing.StartSession` | crates/controller/src/pairing.rs:198-229 | A session starts only while running and starting sessions together are below 32 |
| `PairingOwner.Pairing.Complete` | crates/controller/src/pairing.rs:410-476 | The operation leaves the table or moves on under the same owner, a good start opens its session, a failing new device is rolled back, and the invariant with its one answer per request is kept; `PairingAnswers` states each ending |
| `PairingOwner.Pairing.PollAll` | crates/controller/src/pairing.rs:555-572 | The loop terminates with a moving clock, leaves the state of failing everything due one at a time, and keeps the invariant |
| `HandOff.PickNearest` | crates/hopos/src/server.rs:71-81 | The worker picked is idle and no idle one comes earlier in the round |
| `HandOff.PickFrom` | crates/hopos/src/server.rs:71-81 | The loop picks that worker and leaves the cursor behind it |
| `HandOffRuns.FirstPickSucceeds` | crates/hopos/src/server.rs:83-99 | The first worker picked waits with an empty mailbox |
| `HandOffRuns.EveryRunKeepsInv` | crates/hopos/src/server.rs:116-181 | In every interleaving flags are true, each connection is in exactly one place, the backlog stays within 32 and no wake-up is lost |
| `HandOffRuns.DrainKeeps` | crates/hopos/src/server.rs:121-142 | After draining, a connection still waits only when no worker is idle |
| `HandOffRuns.DrainKeepsOrder` | crates/hopos/src/server.rs:121-142 | Draining closes exactly those that had waited more than 90 seconds when their turn came; what still waits is the tail of the queue in its old order, and its first has not waited that long |
| `HandOffRuns.NewcomerOvertakes` | crates/hopos/src/server.rs:166-174 | A newcomer is served before those who wait exactly when a worker became idle since |
| `HandOffOvertaking.OvertakingHappens` | crates/hopos/src/server.rs:119-174 | A reachable run of twenty moves after which the tenth connection is in a mailbox while the ninth still waits |
| `HandOffServer.Server.Offer` | crates/hopos/src/server.rs:83-99 | The connection goes to the first worker picked, whose mailbox is empty, or comes back |
| `HandOffServer.Server.DrainBacklog` | crates/hopos/src/server.rs:121-142 | Those who wait are handed out in order and what is stale is closed |
| `HandOffServer.Server.Accepted` | crates/hopos/src/server.rs:166-174 | A turn with a new connection hands it out or queues it, drains the queue and keeps the invariant |
| `HandOffServer.Server.Wake` | crates/hopos/src/server.rs:143-165 | A turn after a signal, tick or pause drains the queue and keeps the invariant |
| `HandOffServer.Server.WorkerRests` | crates/hopos/src/server.rs:794-800 | Raising the flag and the signal before waiting keeps the invariant, so no wake-up is lost |
| `HandOffServer.Server.WorkerTakes` | crates/hopos/src/server.rs:800-801 | Taking the mail and lowering the flag keeps the invariant |
| `JsonComplete.RenderingsParse` | crates/core/src/json_bounded.rs:11-26 | Every rendering of a well-formed tree that fits, with any white space and escapes, parses to its meaning |
| `JsonComplete.StringAt` | crates/core/src/json_bounded.rs:205-234 | Every way to write a string decodes to what it means |
| `JsonComplete.NumberAt` | crates/core/src/json_bounded.rs:244-291 | Every well-formed number is read to its end and kept exactly when it fits 64 bits |
| `JsonComplete.MembersAt` | crates/core/src/json_bounded.rs:89-123 | Members with distinct decoded keys are read in order |
| `JsonComplete.ItemsAt` | crates/core/src/json_bounded.rs:125-147 | Items are read in order |
| `JsonSound.ParsedRenders` | crates/core/src/json_bounded.rs:11-26 | Every accepted input is the rendering of a well-formed tree, within the depth, that means the answer |
| `JsonSound.ParsesExactlyRenderings` | crates/core/src/json_bounded.rs:11-26 | The parser answers a value exactly when the input is a rendering of it within the limits |
| `JsonSound.RenderingsAgree` | crates/core/src/json_bounded.rs:70-292 | One text never means two values |
| `JsonSound.StringOf` | crates/core/src/json_bounded.rs:184-234 | Every accepted string was written with plain UTF-8 runs and well-paired escapes |
| `JsonSound.MembersOf` | crates/core/src/json_bounded.rs:89-123 | Every accepted object has distinct decoded keys |
| `JsonUtf8.ParsedStringIsUtf8` | crates/core/src/json_bounded.rs:184-234 | Every decoded string is UTF-8 |
| `JsonUtf8.PairsAreExact` | crates/core/src/json_bounded.rs:186-198 | A surrogate pair names exactly the code point it was made from |
| `JsonTokens.PointOfBytes` | crates/core/src/json_bounded.rs:294-299 | Every code point that is no surrogate is written as one UTF-8 character whose free bits (RFC 3629, section 3) give it back |
| `JsonTokens.BytesOfPoint` | crates/core/src/json_bounded.rs:294-299 | Every UTF-8 character is the writing of its code point, which is no surrogate |
| `JsonTokens.LettersParse` | crates/core/src/json_bounded.rs:164-182 | A string of one escaped letter is the byte of RFC 8259, section 7; no other byte but the `u` of a code can be escaped |
| `JsonTokens.CodeParses` | crates/core/src/json_bounded.rs:184-203 | A string of one four-digit code in either case is the character with that code point; a lone low surrogate is U+FFFD |
| `JsonTokens.PairParses` | crates/core/src/json_bounded.rs:184-203 | A string of one surrogate pair is the character above the basic plane the pair was made from |
| `JsonTokens.WholeParses` | crates/core/src/json_bounded.rs:244-291 | A whole number is read as itself exactly when it fits 64 bits, signed behind a minus |
| `JsonTokens.WordsParse` | crates/core/src/json_bounded.rs:70-87 | The three words are null, true and false |
| `JsonParser.ParseDocument` | crates/core/src/json_bounded.rs:11-26 | The cursor-based parser gives the specified answer, fault and offset included, on every input |
| `JsonParser.Parser.ReadValue` | crates/core/src/json_bounded.rs:70-87 | The value, the position behind it or the first fault are those of the specification, the depth being checked first |
| `JsonParser.Parser.ReadObject` | crates/core/src/json_bounded.rs:89-123 | The loop over members gives the specified object or first fault |
| `JsonParser.Parser.ReadArray` | crates/core/src/json_bounded.rs:125-147 | The loop over items gives the specified array or first fault |
| `JsonParser.Parser.StringValue` | crates/core/src/json_bounded.rs:205-234 | The loop over runs and escapes gives the specified text or first fault |
| `JsonParser.Parser.Unicode` | crates/core/src/json_bounded.rs:184-203 | Surrogates are paired or refused, a lone low one becomes U+FFFD; `JsonTokens` states the code point of what comes out |
| `JsonParser.Parser.NumberValue` | crates/core/src/json_bounded.rs:244-291 | The number read and where it ends are the specified ones |

## Left out

- Allocation failures: every reservation succeeds, so `Error::Memory` does not occur.
- Sockets, file descriptors, the clock, entropy and log lines: what they answer is a parameter of a step.
- JSON access inside flows, records and messages: canvases, records and requests are records with typed
  fields, and everything else in a flow is one nested value that only references are looked for in.
- Built-in conditions, actions, card arguments and token texts of flows: their outcome is a parameter.
- Scenes, groups, notifications and device records of the store: their writes are the operations `Change` and
  `Rewrite`, which leave flows alone or rewrite them.
- Frame contents above the length prefix, request ids and authentication of the app channel.
- HTTP parsing of media viewers and the socket buffers behind a viewer: a frame leaves a queue as a whole.
- TZif byte layout, its size check and the POSIX rule text: the table and the rules are given.
- HTTP serving by a worker: a connection is served in one step between taking it and resting.
- The iOS app, notifications, TLS, mDNS and the other protocol libraries.
- SlotCodec.BurstRejected: a change of up to four bytes across the start of the payload, which reaches from the
  stored checksum into the payload, is not covered, because checksum and payload are not neighbours for the CRC.
- MediaService.Owner.PruneImages: states the new state only; that the counts stay true needs the condition of
  `MediaBalance.PruneExact`.
- HandOffServer.Server.Offer: the loop over further workers is not written out, because the first one picked is
  proved to take the connection.
- PairingOwner.Pairing.Ask: a new device takes a fresh id, as the entropy source is assumed to give.
- PairingRequests.StartsStayStored: asks of other parts of the controller to leave devices in place while they start,
  and of scenes to have no drivers.
- PairingRequests.ReplacementAsked: the name of a device and its hardware name are not part of the record.
- ZoneRules.ExtensionRightExactly: the offset in force lets a start win over an end at the same instant, as daylight
  saving all year round needs.
- JsonParser.Parser.NumberValue: numbers with a fraction, an exponent or more than 64 bits keep their text instead of
  a floating-point value.
- JsonParser.ParseDocument: the depth limit is a parameter, because its constant is not part of this model.
