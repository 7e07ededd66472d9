# Peerless Server: verified models

The server rips, archives and plays music on request of chat and web clients. This project models the parts
of it in which the order of events, exact sizes or exact spellings decide correctness, and proves what
those parts keep. `dafny verify dfyconfig.toml` checks everything.

| file | what it models |
|---|---|
| RipQueue, RipQueueSystem, RipQueueRuns, RipQueueOutcomes | the single-worker rip queue: its lock sections as methods, all interleavings of submitters, abort watchers, `clear` and workers as a transition system, theorems over runs, and which step decides what a submitter is told |
| ZipPlan | the in-order greedy ZIP part planner with its 64-bit checked sizes, validation and part names |
| Filename | sanitizing, UTF-8 bounded names (section 3 of RFC 3629), collision ids, partial names |
| Ripper | tagger names, the output reservation loop, one rip attempt, the retry loop |
| Callbacks | the colon-separated callback grammar, printer and parser |
| PlaybackSync | the playback room shared by many sockets |
| Catalog | grouping cached tracks and live results into canonical tracks |
| Albums | compare-and-swap replacement and deletion of archive parts |
| Playlists, PlaylistSystem | the position table as one duplicate-free list per playlist: its calls by themselves, and every interleaving of their statements |
| EventBridge | the bounded event channel that may drop progress but never terminal events |
| Acquisition | retry rounds over the primary mirror and the wrapper |
| Timestamps | reading and printing lyrics timestamps |
| Text, Sequences | strings, UTF-8, decimals, splitting; sequences, multisets, first occurrences |

State that the program changes in place is a class whose methods are proved against functions on
values; concurrency is a transition system with one step per lock section, transaction, statement
outside a transaction or channel operation, and its invariants are proved for every step and then
for every run. Answers of the
outside world (files, sources, sockets, the database's own failures, the moment of cancellation) are
parameters, so the theorems hold for all of them.

Seven properties one would expect hold only under a condition, which is proved exactly:
the kept suffix (`Filename.DotSuffixIsKeptIff`), the planner near 2^64 (`ZipPlan.NoOverflowIff`), the
active playback device (`PlaybackSyncSystem.ActiveKeptIff`), the context of an ended job
(`EventBridgeSystem.ForgottenIff`), distinct playlist positions (`PlaylistSystem.StaysValidIff`),
message ids when others act inside a deletion (`Albums.SplitDeleteConservesIffBalanced`), and one
group per catalog track (`Catalog.OneHomeIff`).

## Model

| member | source | states |
|---|---|---|
| `RipQueue.SequentialRipQueue.constructor` | crates/engine/src/queue.rs:73-84 | A new queue is empty and idle, and its first id is 1. |
| `RipQueue.SequentialRipQueue.Submit` | crates/engine/src/queue.rs:141-214 | An already cancelled submission changes nothing; any other one gets the next id, goes to the end, claims the worker exactly when none was promised, and hears its rank only when a worker is already there. |
| `RipQueue.SequentialRipQueue.Clear` | crates/engine/src/queue.rs:104-114 | Drains exactly the pending items, in order, and touches neither the active item nor the worker flag. |
| `RipQueue.SequentialRipQueue.AbortPending` | crates/engine/src/queue.rs:232-255 | Takes out exactly the item with that id, when it is pending, and re-ranks only the items behind it. |
| `RipQueue.SequentialRipQueue.AbortItem` | crates/engine/src/queue.rs:232-269 | A whole abort with nobody between its lock sections takes out the item when it is pending, and cancels the child token exactly of a pending or the active item. |
| `RipQueue.SequentialRipQueue.TakeNext` | crates/engine/src/queue.rs:271-292 | Hands out the oldest pending item and marks it active; with nothing pending the worker gives up its claim. |
| `RipQueue.SequentialRipQueue.Release` | crates/engine/src/queue.rs:309-316 | After a task the worker exits, and drops its claim, exactly when nothing is pending. |
| `RipQueue.RanksFrom` | crates/engine/src/queue.rs:235-248 | The loop over the remaining items computes exactly the 1-based ranks of the ones that listen. |
| `RipQueueSystem.WorkerPreserved` | crates/engine/src/queue.rs:171-214 | Every step of every party keeps: at most one worker is promised or running, `processing` says exactly that, and pending work implies it. |
| `RipQueueSystem.OrderPreserved` | crates/engine/src/queue.rs:171-195 | Every step keeps started ids, the id about to start, pending ids and the next id in one increasing line. |
| `RipQueueSystem.PlacesPreserved` | crates/engine/src/queue.rs:104-114 | Every step keeps each issued id in exactly one of pending, worker's hands, detached, completed, and each completion single. |
| `RipQueueSystem.OutcomePreserved` | crates/engine/src/queue.rs:294-308 | Every step keeps completions truthful: aborted and cleared items never started, started ones report their own result. |
| `RipQueueRuns.NoticePreserved` | crates/engine/src/queue.rs:235-248 | Every step keeps every listener's positions decreasing and its last one current. |
| `RipQueueRuns.AbortPreserved` | crates/engine/src/queue.rs:217-269 | Every step keeps: a fired watcher's item is not pending, and is cancelled or decided once the watcher is through. |
| `RipQueueRuns.RunKeepsInv` | crates/engine/src/queue.rs:171-317 | All invariants together hold along every run from any state that has them. |
| `RipQueueRuns.SingleWorkerNoLostWakeup` | crates/engine/src/queue.rs:171-214 | In every reachable state of every interleaving there is at most one worker, `processing` holds exactly then, pending items imply a worker, and an item in the worker's hands is the active one. |
| `RipQueueRuns.ExactlyOnePlace` | crates/engine/src/queue.rs:104-114 | In every reachable state an issued id is in exactly one place, an id not issued is nowhere, and no completion is sent twice. |
| `RipQueueRuns.CompletionsAreTruthful` | crates/engine/src/queue.rs:151-162 | An item reports a task result exactly when it started, and then its own; an item reported aborted had its watcher fired. Which step decides each outcome is RipQueueOutcomes.OutcomesAreDecided. |
| `RipQueueRuns.FirstInFirstOut` | crates/engine/src/queue.rs:273-292 | Ids start in strictly increasing order, pending ids increase, and all that started are older than all that are pending. |
| `RipQueueRuns.NoticesAreRanks` | crates/engine/src/queue.rs:235-248 | Every position any step computes for a callback is its item's 1-based rank at that moment. |
| `RipQueueRuns.RanksDecreaseAndStayCurrent` | crates/engine/src/queue.rs:171-195 | One listener's positions strictly decrease, and while it is pending the last one is its current rank; only the item at the front may have heard nothing. |
| `RipQueueRuns.AbortTakesEffect` | crates/engine/src/queue.rs:217-269 | Once an abort watcher has fired and looked, its item is no longer pending, and its token is cancelled or its completion was decided already. |
| `RipQueueRuns.CheckFindsTheActive` | crates/engine/src/queue.rs:257-268 | In every reachable state the second look of an abort cancels the token exactly of the item a worker has in hand or has just reported, and changes nothing else. |
| `RipQueueRuns.MeasureDecreases` | crates/engine/src/queue.rs:271-317 | Without submissions no step raises the measure and every worker, watcher and completion step lowers it. |
| `RipQueueRuns.StuckMeansDrained` | crates/engine/src/queue.rs:271-317 | A reachable state in which only submissions, clears and aborts are possible is drained: nothing pending, no worker, every issued id completed. |
| `RipQueueRuns.DrainIsBounded` | crates/engine/src/queue.rs:271-317 | Without submissions the number of worker, watcher and completion steps of any run is bounded by the measure. |
| `RipQueueRuns.DrainExists` | crates/engine/src/queue.rs:271-317 | From every reachable state the worker and the pending completions alone empty the queue. |
| `RipQueueRuns.StepShortensWait` | crates/engine/src/queue.rs:271-317 | No step of anybody, submissions included, raises the wait of an item that stays pending, and every worker step lowers it. |
| `RipQueueRuns.WaitIsBounded` | crates/engine/src/queue.rs:271-317 | In every run in which an item stays pending the worker makes at most that many steps, however many items others submit: no item starves. |
| `RipQueueRuns.PendingMeansWork` | crates/engine/src/queue.rs:171-214 | While an item is pending some worker step is possible. |
| `RipQueueOutcomes.StepSettlesIff` | crates/engine/src/queue.rs:104-114 | One step settles an item as aborted exactly when it is the abort of that pending item, as cleared exactly when it is a clear while the item is pending, and no step unsettles either. |
| `RipQueueOutcomes.SettledIff` | crates/engine/src/queue.rs:232-262 | Over every run from the start an item is settled as aborted, or as cleared, exactly when some prefix ends right before such a step. |
| `RipQueueOutcomes.OutcomesAreDecided` | crates/engine/src/queue.rs:232-262 | A completion says Aborted only if an abort of the pending item decided it, and Cleared only if a clear did while it was pending; for an item with a completion both are equivalences. |
| `RipQueueOutcomes.NoCauseNoOutcome` | crates/engine/src/queue.rs:104-114 | A run without a clear tells nobody Cleared, and without an item's own abort the item is not told Aborted. |
| `RipQueueOutcomes.StepKeepsTokens` | crates/engine/src/queue.rs:249-268 | Every step keeps the child tokens and the outcomes in agreement. |
| `RipQueueOutcomes.TokensFollowOutcomes` | crates/engine/src/queue.rs:249-268 | In every run whoever is told Aborted or Cleared has a cancelled child token, and only then or by an abort is a token cancelled. |
| `RipQueueOutcomes.SubmitterHears` | crates/engine/src/queue.rs:185-203 | In every reachable state a listening submission hears its rank, one more than what is pending, exactly when a worker is there already. |
| `RipQueueOutcomes.StepKeepsFront` | crates/engine/src/queue.rs:235-248 | No step computes a position for an item that nobody is in front of, or puts anybody in front of it. |
| `RipQueueOutcomes.WakerHearsNothing` | crates/engine/src/queue.rs:185-203 | The item whose submission wakes a worker is never told a position, however the run goes on. |
| `Filename.BoundUtf8Prefix` | crates/engine/src/filename.rs:168-177 | The byte loop that steps back to a boundary yields the encoding of the longest prefix of whole characters that fits. |
| `Filename.LongestPrefixIsLongest` | crates/engine/src/filename.rs:168-177 | No longer prefix of whole characters fits the byte limit. |
| `Filename.LastBoundary` | crates/engine/src/filename.rs:168-177 | Between the end of that prefix and the limit there is no other character boundary. |
| `Filename.NameIsSafe` | crates/engine/src/filename.rs:74-106 | For every name and optional suffix and MAX at least 5 the result is non-empty, at most MAX bytes, free of forbidden characters and no dot name. |
| `Filename.ShortNameIsCleaned` | crates/engine/src/filename.rs:74-106 | A name that fits and has no white space around it is changed only where it has one of nine punctuation characters or a control character, and there to an underscore. |
| `Filename.EmptyNameIsTrack` | crates/engine/src/filename.rs:80-105 | A name of nothing but spaces, or a dot name, becomes `track`, whatever suffix is asked for. |
| `Filename.SuffixIsKept` | crates/engine/src/filename.rs:74-106 | A non-empty suffix below the limit that ends the trimmed name is kept whole, after the longest prefix that leaves room, unless it is one or two dots. |
| `Filename.DotSuffixIsKeptIff` | crates/engine/src/filename.rs:74-106 | A suffix of one or two dots, where keeping can fail, is kept exactly when the trimmed name is not itself a dot name and, at a limit of exactly five bytes, its first characters leave room. |
| `Filename.DotSuffixIsLost` | crates/engine/src/filename.rs:74-106 | A name that is the suffix of one dot itself loses it at every limit. |
| `Filename.DotSuffixIsCrowdedOut` | crates/engine/src/filename.rs:74-106 | A four-byte character before two dots loses them at a limit of five bytes. |
| `Filename.SafeNameIsKept` | crates/engine/src/filename.rs:74-106 | A safe name without white space around it comes back unchanged, whatever suffix is asked for. |
| `Filename.CollisionNameIsSafe` | crates/engine/src/filename.rs:110-129 | A name with a collision id is non-empty, bounded, clean and no dot name. |
| `Filename.CollisionNamesAreInjective` | crates/engine/src/filename.rs:110-129 | Two decimal ids give the same name only when they are equal, provided the extension leaves room for them. |
| `Filename.IdGoesBeforeTheExtension` | crates/engine/src/filename.rs:110-129 | When everything fits, the name with an id is stem, underscore, id and extension, where the extension starts at the last dot that is not the first character. |
| `Filename.PartialNameIsSafe` | crates/engine/src/filename.rs:156-165 | The partial name of an archive is safe, exactly ten bytes longer and therefore within 255 bytes. |
| `Filename.PartialMarkPlace` | crates/engine/src/filename.rs:156-165 | The mark stands before the extension of an archive and at the end of any other name. |
| `Filename.PartialNamesAreInjective` | crates/engine/src/filename.rs:156-165 | Different archive names keep different partial names. |
| `ZipPlan.GroupTracks` | crates/engine/src/zip.rs:301-324 | The grouping loop fails exactly when one of its checks fails, with the first such error; otherwise its groups are non-empty, concatenate to the input, each fits beside the cover or holds one track, and none could have taken the next track. |
| `ZipPlan.AddTrackKeepsPacked` | crates/engine/src/zip.rs:304-321 | One turn of the loop keeps the groups and the open part a saturated partition of the tracks seen. |
| `ZipPlan.FirstPartIsLongest` | crates/engine/src/zip.rs:301-324 | The first greedy part is at least as long as the first part of any other allowed in-order partition. |
| `ZipPlan.SaturatedIsFewest` | crates/engine/src/zip.rs:301-324 | A saturated partition has the fewest parts among all in-order contiguous partitions whose parts fit or hold a single track. |
| `ZipPlan.NoOverflow` | crates/engine/src/zip.rs:304-321 | While the cover plus two full parts stays below 2^64 no checked addition fails from any loop state, so grouping succeeds exactly when no track is too large. |
| `ZipPlan.NoOverflowIff` | crates/engine/src/zip.rs:304-321 | Every list of tracks that fit is grouped exactly when cover + 2 * usable is below 2^64. |
| `ZipPlan.TwoFullTracksOverflow` | crates/engine/src/zip.rs:309-313 | Two tracks whose sizes with the cover reach 2^64 are refused although one part each would do. |
| `ZipPlan.PlanExistsIff` | crates/engine/src/zip.rs:291-324 | With valid names and matching files, and below that bound, there is a plan exactly when what is set aside (512 bytes for each track, the cover and the manifest, and 65536) leaves room for the cover and for every single track; otherwise the limit is invalid or a track too large. |
| `ZipPlan.OverflowRejectsASplittableList` | crates/engine/src/zip.rs:309-313 | A concrete plan that is refused: two files of the largest signed 64-bit size and a cover of two bytes or more, although one part each would do. |
| `ZipPlan.NoTrackProblem` | crates/engine/src/zip.rs:263-289 | The track checks pass exactly when all entry names are valid and pairwise distinct, none is the manifest, and every source exists with its stated size. |
| `ZipPlan.CheckTracks` | crates/engine/src/zip.rs:262-289 | The checking loop reports the first problem in the planner's order. |
| `ZipPlan.EntryNameIsValid` | crates/engine/src/zip.rs:86-105 | Every generated entry name passes the planner's own validation. |
| `ZipPlan.PartNamesAreDistinct` | crates/engine/src/zip.rs:335-355 | Two parts of one plan never share an archive name, whatever the artist and album: the numbered suffix survives sanitizing and truncation. |
| `ZipPlan.ArchiveNameEnds` | crates/engine/src/zip.rs:333-346 | Every archive name ends with the codec's label and, when there are several parts, the number of the part and of all parts, whatever the artist and album. |
| `ZipPlan.YearIsShownIff` | crates/engine/src/zip.rs:327-332 | The year is shown exactly when the release date starts with four ASCII digits. |
| `ZipPlan.PlanZipParts` | crates/engine/src/zip.rs:245-356 | The planner fails exactly with the first problem in order; a plan's parts concatenate to the track list; in bytes, every part of several tracks with the cover and what is set aside is within the limit, so is every single track, and no part could have taken the next track; there are as few parts as any allowed in-order partition has; they are numbered 1..n with a common total, and carry the cover and pairwise distinct names. |
| `Ripper.TrackFilenameHasShortExtension` | crates/engine/src/tagger.rs:19-29 | Any front with a dash and the tagger's suffix give a name that is safe for 255 bytes and ends in a dot and at most four characters behind a bracket, also after truncation. |
| `Ripper.TaggerNameIsUsable` | crates/engine/src/tagger.rs:12-29 | Whatever the track number, title, artist, explicit flag and codec, the tagger's name is safe and has the shape the reservation relies on. |
| `Ripper.TrackNameReads` | crates/engine/src/tagger.rs:12-29 | A track name whose parts are clean and fit is number, title, artist, explicit mark, codec label and extension; a missing or zero number reads as 1. |
| `Ripper.CollisionNameIsNew` | crates/engine/src/ripper.rs:623-641 | A collision name always differs from the tagger's own name. |
| `Ripper.CandidatesAreDistinct` | crates/engine/src/ripper.rs:623-641 | The names tried by one reservation loop are pairwise distinct, whoever else draws ids in between. |
| `Ripper.AttemptsAreFew` | crates/engine/src/ripper.rs:623-641 | Attempts that all hit taken names are at most as many as there are such names. |
| `Ripper.ReserveName` | crates/engine/src/ripper.rs:623-641 | The reservation loop ends after at most one attempt more than there are existing names, or at the attempt whose open fails for another reason, and otherwise returns the first candidate that was free. |
| `Ripper.Reserve` | crates/engine/src/ripper.rs:623-641 | The reserved name is the tagger's or one with a collision id, held by no file and by no other job at that moment, whatever suffixes other jobs draw in between; a failing open reserves nothing. |
| `Ripper.Counter.FetchAdd` | crates/engine/src/ripper.rs:898-902 | Each draw returns a suffix that was never returned before, here or to another job, and marks exactly that one as returned. |
| `Ripper.Download` | crates/engine/src/ripper.rs:655-760 | Bytes written never exceed the audio limit; the error is the first one in the order of the loop; without an error all received bytes were written and a declared positive length was met exactly. |
| `Ripper.FailingTurnDecides` | crates/engine/src/ripper.rs:669-742 | When all turns before one went well within the limit and it fails, its own failure is the error: cancellation, a stalled or corrupt stream (or a cancellation seen then), a chunk beyond the limit, a failed write. |
| `Ripper.DownloadFailsOutsideTurns` | crates/engine/src/ripper.rs:656-668 | An oversized declared length, an unwritable raw file, a late cancellation and a body of another length each give their own error. |
| `Ripper.DownloadSucceedsIff` | crates/engine/src/ripper.rs:655-760 | A download has no error exactly when nothing fails or is cancelled, every prefix stays within the limit and the declared length is met. |
| `Ripper.Deliver` | crates/engine/src/ripper.rs:655-868 | The error is that of the download, then of the flush and the checks after it, then of the finalizer; on success the reserved file holds what the finalizer produced; on any error the reserved name is gone and nothing else changed. |
| `Ripper.RipOnce` | crates/engine/src/ripper.rs:473-868 | One attempt succeeds or fails exactly as the outside world decides, early errors first; it adds exactly one file, under a name for its own metadata and codec that neither a file nor another job held, or leaves the directory as it was. |
| `Ripper.AttemptSucceedsIff` | crates/engine/src/ripper.rs:473-868 | An attempt that is not refused a name succeeds exactly when no flag is set, nothing fails, sizes are within the limit and the declared length is met. |
| `Ripper.StageErrors` | crates/engine/src/ripper.rs:473-868 | Which error each stage of an attempt gives when everything before it went well. |
| `Ripper.CancelledHasACause` | crates/engine/src/ripper.rs:473-868 | An attempt answers Cancelled only when some flag was set or its metadata, connection or finalizer reported it. |
| `Ripper.Rip` | crates/engine/src/ripper.rs:412-471 | At most max_retries + 1 attempts, each one as its world calls for, each but the last ended in a retryable error without cancellation, and the loop ends in one of five ways; the directory gains exactly one new file on success, with the byte count of the last attempt exact, and is unchanged on error. |
| `Ripper.RipSucceeds` | crates/engine/src/ripper.rs:420-470 | If an attempt within the retries meets a world in which nothing fails, and every earlier one failed in a retryable way without cancellation, the rip succeeds in exactly that attempt. |
| `Ripper.RipFails` | crates/engine/src/ripper.rs:427-458 | After retryable failures without cancellation, a lasting error ends the rip at once with that error, and a retryable error of the last attempt allowed is the answer. |
| `Ripper.RipCancelledHasACause` | crates/engine/src/ripper.rs:420-470 | A rip answers Cancelled only when somebody cancelled before, during or after an attempt that was reached, or an attempt itself reported it. |
| `Callbacks.RoundTrip` | crates/bot/src/interaction.rs:152-250 | decode(encode(a)) = Ok(a) exactly for the well-formed actions whose payload fits in 256 bytes. |
| `Callbacks.AcceptedSurvives` | crates/bot/src/interaction.rs:152-223 | Whatever decode accepts, after defaulting and case folding, is well-formed and survives encode-then-decode unchanged. |
| `Callbacks.AcceptedIff` | crates/bot/src/interaction.rs:152-223 | A callback is read as an action exactly when it is not empty, has at most 256 bytes, the action is well-formed and the fields spell it: as printed, up to the case of storefronts, the way numbers are written, and a missing storefront meaning `us`. |
| `Callbacks.RefusalsAreExplained` | crates/bot/src/interaction.rs:152-259 | Every refusal is Empty, Oversized, Malformed for a known prefix with a wrong field, or Unknown, exactly in that order. |
| `Callbacks.SettingsAcceptedIff` | crates/bot/src/interaction.rs:261-284 | Fields are read as a settings action exactly when they spell it. |
| `Callbacks.ReportAcceptedIff` | crates/bot/src/interaction.rs:286-310 | Fields are read as a report action exactly when they are its printed form and its ids are valid. |
| `Callbacks.DiscoveryAcceptedIff` | crates/bot/src/interaction.rs:312-344 | Fields are read as a discovery action exactly when they spell it; without a storefront a discovery or reroll means `us`. |
| `Callbacks.EncodeIsInjective` | crates/bot/src/interaction.rs:225-250 | Two well-formed actions with the same payload are the same action. |
| `Callbacks.ParseEncode` | crates/bot/src/interaction.rs:152-250 | Parsing without the cap undoes printing on every well-formed action. |
| `Callbacks.ParsedIsWellFormed` | crates/bot/src/interaction.rs:253-344 | Everything the parser accepts satisfies the validators. |
| `Callbacks.FixedActionsFit` | crates/bot/src/interaction.rs:400-470 | Every well-formed action outside the three with free-text ids, all report payloads among them, fits the cap. |
| `Callbacks.SettingsRoundTrip` | crates/bot/src/interaction.rs:261-284 | Parsing the fields of a settings action gives it back. |
| `Callbacks.ReportRoundTrip` | crates/bot/src/interaction.rs:286-310 | Parsing the fields of a report action gives it back. |
| `Callbacks.DiscoveryRoundTrip` | crates/bot/src/interaction.rs:312-344 | Parsing the fields of a discovery action gives it back. |
| `Callbacks.FreeTextIsVerbatim` | crates/bot/src/interaction.rs:152-223 | A payload accepted as one of the free-text actions is its own encoding. |
| `PlaybackSync.SyncRoom.RemoveDeviceConnection` | crates/server/src/playback_sync.rs:298-304 | Removes a device from both maps only for the connection that owns it, and says whether it did. |
| `PlaybackSync.SyncRoom.Hello` | crates/server/src/playback_sync.rs:197-222 | Drops the socket's previous device if it still owns it, takes the announced one over, fills an empty active role, broadcasts the room. |
| `PlaybackSync.SyncRoom.ReportState` | crates/server/src/playback_sync.rs:223-237 | Only the active device's report changes the snapshot and is broadcast. |
| `PlaybackSync.SyncRoom.Command` | crates/server/src/playback_sync.rs:238-245 | Forwards the command and changes nothing. |
| `PlaybackSync.SyncRoom.TransferPlayback` | crates/server/src/playback_sync.rs:246-255 | Makes any named device active, connected or not, and broadcasts. |
| `PlaybackSync.SyncRoom.Disconnect` | crates/server/src/playback_sync.rs:282-295 | Removes the socket's device if still owned and passes the active role to any device that is left, or to none. |
| `PlaybackSync.SyncRoom.constructor` | crates/server/src/playback_sync.rs:65-73 | A new room has no devices, no owner, no active device and no snapshot. |
| `PlaybackSyncSystem.OwnerPreserved` | crates/server/src/playback_sync.rs:197-295 | Every step of every socket keeps both maps on the same devices, each owned by an open connection that announced it last. |
| `PlaybackSyncSystem.OneDevicePerConnection` | crates/server/src/playback_sync.rs:197-222 | A connection owns at most one device. |
| `PlaybackSyncSystem.OthersKeepTheirDevices` | crates/server/src/playback_sync.rs:298-304 | No step of a connection removes or changes a device that another connection owns, unless it announces that very device: a stale disconnect never removes a replacement. |
| `PlaybackSyncSystem.SnapshotComesFromTheActive` | crates/server/src/playback_sync.rs:223-237 | No step changes the snapshot but a report by a socket whose announced device is the active one. |
| `PlaybackSyncSystem.ActiveAfterStep` | crates/server/src/playback_sync.rs:197-255 | The exact active device after every step: the target of a transfer, the announced device when the role was empty, the heir when the owner of the active device ends, and otherwise the one before. |
| `PlaybackSyncSystem.DevicesAfterStep` | crates/server/src/playback_sync.rs:197-222 | The exact devices after every step: an announcement lists exactly its device, owned by its connection, and drops what else that connection owned; the end of a connection drops what it owned; nothing else changes an entry. |
| `PlaybackSyncSystem.TransferLasts` | crates/server/src/playback_sync.rs:246-255 | In every run, after a transfer its target stays active until the next transfer or until the owner of the target ends. |
| `PlaybackSyncSystem.ListedIff` | crates/server/src/playback_sync.rs:197-222 | In every run a device is listed for a connection exactly when that connection announced it with these data, is still open, announced nothing since, and nobody announced the same id since. |
| `PlaybackSyncSystem.ActiveKeptIff` | crates/server/src/playback_sync.rs:246-255 | From a state where the active device is absent exactly when none is connected, and connected otherwise, a step breaks this exactly when it transfers to an absent device or re-announces the owner of the active one under another id. |
| `PlaybackSyncSystem.ActiveFollowsDevices` | crates/server/src/playback_sync.rs:197-255 | In every run without those two steps the active device is absent exactly when no device is connected, and otherwise a connected one. |
| `PlaybackSyncSystem.ReannouncingStrays` | crates/server/src/playback_sync.rs:197-222 | A concrete run in which announcing a second id leaves an active device that is gone. |
| `PlaybackSyncSystem.TransferStrays` | crates/server/src/playback_sync.rs:246-255 | A concrete run in which a transfer names a device that is not there and leaves it active. |
| `PlaybackSyncSystem.RoomsNeverLeak` | crates/server/src/playback_sync.rs:282-304 | Over every interleaving the maps agree and owners are open; once all sockets are closed both maps are empty. |
| `PlaybackSyncSystem.ReplicaPreserved` | crates/server/src/playback_sync.rs:197-295 | Every broadcast keeps the replayed view equal to the room. |
| `PlaybackSyncSystem.ClientsConverge` | crates/server/src/playback_sync.rs:197-295 | A client that received every broadcast since some point, one of them a room state, sees exactly the room, whatever it believed before. |
| `Catalog.FindGroup` | crates/server/src/catalog.rs:375-377 | The search stops at the first group that matches. |
| `Catalog.AddEntry` | crates/server/src/catalog.rs:375-417 | One turn of a loop changes the first matching group or appends a new one. |
| `Catalog.BuildCanonicalTracks` | crates/server/src/catalog.rs:363-486 | The two loops compute the fold over all cached tracks, then all live results. |
| `Catalog.EarlierGroupsPersist` | crates/server/src/catalog.rs:363-486 | A group never loses a source or changes its identity again; its ISRC and its artwork change at most from absent to present, live results included. |
| `Catalog.GroupsAreProper` | crates/server/src/catalog.rs:381-396 | No group holds two sources with the same provider, track id and codec, compared without case, and no group has a blank ISRC. |
| `Catalog.ConflictOnlyForSameTrack` | crates/server/src/catalog.rs:322-361 | A contributor whose ISRC differs from the final one of its group is there only because its provider and track id were in that group before it. |
| `Catalog.FounderNamesTheGroup` | crates/server/src/catalog.rs:397-417 | The contribution that opens a group gives it its id, title, artist, album, duration and first source for good. |
| `Catalog.FirstIsrcWins` | crates/server/src/catalog.rs:378-380 | The first non-blank ISRC contributed to a group stays its ISRC. |
| `Catalog.FirstArtworkWins` | crates/server/src/catalog.rs:437-439 | The first artwork a live result brings to a group stays its artwork. |
| `Catalog.NewSourceIsListed` | crates/server/src/catalog.rs:381-396 | A new triple of a cached track, and a new track of a live result, is listed with exactly its own data. |
| `Catalog.GroupIsTold` | crates/server/src/catalog.rs:363-486 | What a group shows is told by the contributions that landed in it: its tracks, the first ISRC brought, and the names and duration of the one that opened it. |
| `Catalog.JoinsIff` | crates/server/src/catalog.rs:322-361 | A contribution joins the first group for which one of three reasons holds of its earlier contributions, and opens a new one exactly when none does: the track is listed; both ISRCs are known and agree up to spaces and case; one is unknown and the opening contribution has equal non-empty normalized title and artist and a duration within three seconds. |
| `Catalog.TwoTracksMeetIff` | crates/server/src/catalog.rs:322-361 | Two cached tracks become one canonical track exactly when they are the same song, in their own fields. |
| `Catalog.LiveMeetsCachedIff` | crates/server/src/catalog.rs:322-361 | The same for a cached track and a live result, which counts as Apple's and whose duration is cast to 32 bits. |
| `Catalog.NothingIsDropped` | crates/server/src/catalog.rs:363-486 | Every contribution ends in a group that lists its provider and track id, and its codec when it is cached. |
| `Catalog.AddsOneSource` | crates/server/src/catalog.rs:381-396 | One contribution adds at most its own source, and exactly that for a cached track with a new triple. |
| `Catalog.CachedSourcesAreConserved` | crates/server/src/catalog.rs:370-417 | Cached tracks with distinct triples become exactly one source each, counted over all groups. |
| `Catalog.SourcesAreConserved` | crates/server/src/catalog.rs:420-486 | Live results leave those sources as they are and add at most one uncached source each. |
| `Catalog.OneHomeIff` | crates/server/src/catalog.rs:322-361 | A contribution leaves its provider and track id in one group exactly when it lands in the group that lists it or no group listed it. |
| `Catalog.OtherHomesStay` | crates/server/src/catalog.rs:363-486 | It never changes in how many groups another track is listed. |
| `Catalog.SecondTrackHasTwoHomes` | crates/server/src/catalog.rs:338-344 | Two tracks that get one ISRC only with their second codecs: the second one is then listed in both groups. |
| `Catalog.TrackInTwoGroups` | crates/server/src/catalog.rs:338-344 | One such input. |
| `Albums.AlbumsTable.FindAlbums` | crates/db/src/albums.rs:26-46 | Returns exactly the matching rows by part index, with no index twice for one codec of a legal table. |
| `Albums.AlbumsTable.InsertAll` | crates/db/src/albums.rs:197-202 | One multi-row insert stores all rows exactly when the table stays legal with them, and none otherwise. |
| `Albums.AlbumsTable.Expected` | crates/db/src/albums.rs:168-177 | The comparison loop decides whether the existing rows meet the expectation. |
| `Albums.AlbumsTable.ReplaceAlbums` | crates/db/src/albums.rs:101-210 | Checks, compares, deletes and inserts with the stated result and new table, rolling back on a failed insert; the table stays legal. |
| `Albums.AlbumsTable.DeleteAlbums` | crates/db/src/albums.rs:213-233 | With nobody between its lookup and its delete it returns exactly the rows it deletes; a failed statement deletes nothing. |
| `Albums.LookupIsOrdered` | crates/db/src/albums.rs:26-46 | A lookup returns exactly the matching rows by part index, and for one codec no index occurs twice. |
| `Albums.ReplaceIsCompareAndSwap` | crates/db/src/albums.rs:109-205 | A replacement commits exactly when all parts belong to it with 32-bit message ids, the group meets the expectation and the table allows the rows; the group then is the uploads, otherwise nothing changed. |
| `Albums.ReplacementTakesThePlace` | crates/db/src/albums.rs:109-205 | In terms of its inputs: a replacement commits exactly when every upload is for this archive with a 32-bit message id, the rows to be replaced meet the expectation, the uploads are legal and no row that stays has one of their files; then the rows are the uploads and the rows that stay, and it names the messages of the rows it took away. |
| `Albums.GroupHoldsTheUploads` | crates/db/src/albums.rs:156-163 | After a committed ALAC or AAC replacement the album's ALAC and AAC rows together are exactly the uploads; every other codec replaces only its own. |
| `Albums.RefusalsAreExplained` | crates/db/src/albums.rs:109-180 | The first bad upload decides between a mismatch and a message id out of range; a stale answer needs good uploads and rows that fail the expectation. |
| `Albums.LegalIff` | crates/db/migrations/20260912000000_tracks_albums_codec/up.sql:7-11 | The constraints row by row: ranges of indices, ids and sizes, no file twice, no part of one archive twice. |
| `Albums.ReplaceKeepsOthers` | crates/db/src/albums.rs:156-196 | The rows of every query that does not overlap the group are untouched. |
| `Albums.StepConserves` | crates/db/src/albums.rs:182-233 | One replacement or undivided deletion moves message ids between committed, stored and reported and loses none. |
| `Albums.MessagesAreConserved` | crates/db/src/albums.rs:182-233 | Over every run of replacements and undivided deletions the ids at the start plus the committed ones are those in rows plus those reported displaced or deleted, as multisets. |
| `Albums.SplitDeleteConservesIff` | crates/db/src/albums.rs:219-231 | When others act between the lookup and the delete, no id is lost or invented exactly when nothing was found or the rows found carry the ids of the rows deleted. |
| `Albums.RunBalances` | crates/db/src/albums.rs:101-233 | Over every run the rows of any query gain exactly the ids that steps write into it and lose those they take out. |
| `Albums.SplitDeleteConservesIffBalanced` | crates/db/src/albums.rs:219-231 | The same condition on the steps in between: they wrote as many of each id into the rows as they took out. |
| `Albums.UndisturbedDeleteConserves` | crates/db/src/albums.rs:219-231 | So it conserves whenever the steps in between leave the rows alone. |
| `Albums.ReplacementInBetweenIsForgotten` | crates/db/src/albums.rs:219-231 | A replacement with other messages in between is deleted without being reported. |
| `Albums.SecondMessageIsForgotten` | crates/db/src/albums.rs:219-231 | One table and replacement at which message 2 is committed, deleted and never reported, and message 1 reported twice. |
| `Albums.RunsStayLegal` | crates/db/migrations/20260912000000_tracks_albums_codec/up.sql:7-11 | Uniqueness and range constraints of the table hold after every run. |
| `Albums.RunKeepsGroup` | crates/db/src/albums.rs:156-196 | A run that avoids a group leaves its rows as they were. |
| `Albums.SecondReplacerSeesTheFirst` | crates/db/src/albums.rs:156-180 | Of two replacers with one expectation the second commits only if the first one's uploads still meet it, and is told it is stale otherwise. |
| `Playlists.PlaylistStore.MaxPosition` | crates/db/src/library.rs:252-256 | The largest position of a playlist, or nothing when it is empty. |
| `Playlists.PlaylistStore.InsertRow` | crates/db/src/library.rs:261-270 | One insert writes the row exactly when it does not exist and its track does; an existing row is left alone, a missing track refused. |
| `Playlists.PlaylistStore.InsertEach` | crates/db/src/library.rs:261-277 | The insert loop writes the absent ids in order up to the first unknown track or failure and counts them. |
| `Playlists.PlaylistStore.GetPlaylist` | crates/db/src/library.rs:213-239 | The owner gets every member once and no position falling, which with distinct positions is the one list the table stands for; anybody else is refused. |
| `Playlists.PlaylistStore.AddTracks` | crates/db/src/library.rs:239-286 | With nobody in between: empty input answers 0 before ownership is looked at; otherwise appends the absent known ids and returns how many, keeping what was inserted before a failure, also of the final time stamp. |
| `Playlists.PlaylistStore.RemoveTrack` | crates/db/src/library.rs:289-314 | Deletes one id and says whether it was there; when only the time stamp fails the id is gone and the answer an error. |
| `Playlists.PlaylistStore.ReorderPlaylist` | crates/db/src/library.rs:317-357 | Replaces the whole list in one transaction, or leaves it when an id is no track or a statement fails. |
| `Playlists.TableShowsItsTracks` | crates/db/src/library.rs:228-236 | Every table with distinct positions stands for exactly one list per playlist, and it has no duplicates. |
| `Playlists.InsertingAppends` | crates/db/src/library.rs:261-277 | Inserting with conflicts ignored appends the absent ids in order of first occurrence and counts them. |
| `Playlists.NextIsPastTheMax` | crates/db/src/library.rs:252-258 | The position an add starts at is one past the largest, or 0, for every table. |
| `Playlists.AddRefines` | crates/db/src/library.rs:239-286 | An uninterrupted add is an append on the list and leaves the rows of other playlists alone. |
| `Playlists.RemoveRefines` | crates/db/src/library.rs:298-304 | A remove drops one id and keeps the order of the rest. |
| `Playlists.ReorderRefines` | crates/db/src/library.rs:327-346 | A reorder turns the list into the first occurrences of its input. |
| `Playlists.RewrittenRows` | crates/db/src/library.rs:239-357 | Rewriting one playlist's rows rewrites its list, keeps positions distinct and no other list changes. |
| `Playlists.ByPositionIsUnique` | crates/db/src/library.rs:228-236 | With distinct positions the query by position has exactly one answer. |
| `Playlists.AddIsCounted` | crates/db/src/library.rs:274-285 | The rows an uninterrupted add writes are the tracks its list gains. |
| `Playlists.CallRefines` | crates/db/src/library.rs:239-357 | Each uninterrupted call, failures included, is the matching edit of one list; other playlists are unchanged and positions stay distinct. |
| `Playlists.OnlyTheOwnerEdits` | crates/db/src/library.rs:378-396 | Nobody but the owner changes a playlist, and a reordering with an id that is no track changes nothing. |
| `Playlists.AddPutsNewTracksLast` | crates/db/src/library.rs:239-286 | The owner's add of known tracks keeps the list as it was and puts the new tracks behind it, in the given order when they are distinct and new. |
| `Playlists.RemoveClosesTheGap` | crates/db/src/library.rs:298-304 | The owner's removal takes exactly the track out and keeps the order of the rest. |
| `Playlists.ReorderReplacesTheList` | crates/db/src/library.rs:327-346 | The owner's reordering makes the list exactly the given tracks, as given when they are distinct. |
| `PlaylistSystem.InsertKeepsValidIff` | crates/db/src/library.rs:261-270 | One insert of an add, whatever ran since the add looked, keeps positions distinct exactly when it writes nothing or its remembered position is free. |
| `PlaylistSystem.InsertAppendsIff` | crates/db/src/library.rs:261-270 | It appends its id to the list, and leaves all other lists alone, exactly when it writes nothing or its position comes after all rows. |
| `PlaylistSystem.StaysValidIff` | crates/db/src/library.rs:239-357 | Over every interleaving of statements positions stay distinct all along exactly when no insert collides. |
| `PlaylistSystem.TwoAddsCollide` | crates/db/src/library.rs:252-270 | Two adds to an empty playlist that both looked before either inserted both succeed and share a position. |
| `PlaylistSystem.StepRefines` | crates/db/src/library.rs:239-357 | A step that no other add or reorder of the playlist disturbs is the matching edit of one list and of no other. |
| `PlaylistSystem.StaysAhead` | crates/db/src/library.rs:252-277 | Such a step keeps the positions that adds remember past all rows. |
| `PlaylistSystem.RunsRefineLists` | crates/db/src/library.rs:239-357 | Over every calm run the table behaves, insert by insert, like one duplicate-free list per playlist, removes at any time included. |
| `PlaylistSystem.ExclusiveRunsAreCalm` | crates/db/src/library.rs:239-357 | Every run in which no other add or reorder of a playlist falls between an add's look and its last insert is calm. |
| `PlaylistSystem.UninterruptedAdd` | crates/db/src/library.rs:239-286 | An add run to its end with nobody in between has the effect and the answer of the whole call. |
| `EventBridge.JobContexts.Remember` | crates/bot/src/dashboard_map.rs:42-67 | Stores the latest header and requester and keeps the pipeline facts already known. |
| `EventBridge.JobContexts.RememberProgress` | crates/bot/src/dashboard_map.rs:71-77 | Replaces the pipeline facts of a known job; an unknown one stays unknown. |
| `EventBridge.JobContexts.Forget` | crates/bot/src/dashboard_map.rs:80-82 | Removes exactly that job. |
| `EventBridge.Bridge.Emit` | crates/bot/src/event_bridge.rs:163-181 | The subscriber queues the event, or parks it with a spawned sender when it is terminal, or drops it; it drops nothing else. |
| `EventBridge.Bridge.Enter` | crates/bot/src/event_bridge.rs:167-174 | A parked event moves to the end of the channel. |
| `EventBridge.Bridge.Handle` | crates/bot/src/event_bridge.rs:215-247 | One consumer turn takes the oldest event and updates the registry for it. |
| `EventBridge.Bridge.constructor` | crates/bot/src/event_bridge.rs:158-161 | A new bridge has an empty channel, no parked events and an empty registry. |
| `EventBridgeSystem.EmitKeepsInv` | crates/bot/src/event_bridge.rs:163-181 | An emission puts its event in exactly one place, drops only what is not terminal, and keeps arrival order. |
| `EventBridgeSystem.EnterKeepsInv` | crates/bot/src/event_bridge.rs:167-174 | A late arrival is terminal, so the order invariant survives it. |
| `EventBridgeSystem.HandleKeepsInv` | crates/bot/src/event_bridge.rs:149-155 | A consumer turn keeps every event in one place and the registry equal to the replay of what was handled. |
| `EventBridgeSystem.RunKeepsInv` | crates/bot/src/event_bridge.rs:149-184 | The invariants hold along every run. |
| `EventBridgeSystem.TerminalsAreHandledOnce` | crates/bot/src/event_bridge.rs:163-181 | Over every interleaving no event is handled twice or invented; a terminal one is always handled, queued or parked, and once drained handled exactly once. |
| `EventBridgeSystem.EmittedEventGoesWhere` | crates/bot/src/event_bridge.rs:158-181 | With fewer than 256 events queued or parked an emitted event joins the queue; with 256 queued a completed, cancelled or failed job's event is parked and any other dropped; the queue never holds more. |
| `EventBridgeSystem.EndingsAreNeverLost` | crates/bot/src/event_bridge.rs:163-181 | In every run an event that completes, cancels or fails a job is never dropped, always handled, queued or parked, and handled once nothing is queued or parked. |
| `EventBridgeSystem.OvertakingNeedsATerminal` | crates/bot/src/event_bridge.rs:165-178 | An event handled after one emitted later is terminal. |
| `EventBridgeSystem.TerminalIsHandledLast` | crates/bot/src/event_bridge.rs:165-178 | If a job's terminal event is emitted last, it is handled after all of the job's surviving events. |
| `EventBridgeSystem.ContextsFollowLastEvent` | crates/bot/src/event_bridge.rs:215-247 | A job has a context exactly when the last of its handled events is not terminal, and it shows that event's header and requester. |
| `EventBridgeSystem.LatestReportIsShown` | crates/bot/src/dashboard_map.rs:71-77 | A job shows the pipeline facts of its latest report until the next report or its end. |
| `EventBridgeSystem.NothingReportedNothingShown` | crates/bot/src/dashboard_map.rs:42-67 | A job without a report since it last ended shows no pipeline facts. |
| `EventBridgeSystem.EndedJobsAreForgotten` | crates/bot/src/event_bridge.rs:122-127 | Once drained, the registry holds no context of a job whose last emitted event is terminal. |
| `EventBridgeSystem.LastHandledIsTerminal` | crates/bot/src/event_bridge.rs:165-178 | If the last emitted event of a job is terminal, so is the last one handled in every drained state, also with several terminal events. |
| `EventBridgeSystem.PromptRun` | crates/bot/src/event_bridge.rs:149-181 | Every order of emissions has a run in which everything is handled in that order. |
| `EventBridgeSystem.ForgottenIff` | crates/bot/src/event_bridge.rs:215-247 | For every order of emissions: all drained runs with it have forgotten a job exactly when the job was never mentioned or its last emitted event is terminal. |
| `EventBridgeSystem.LateEventLeaksAContext` | crates/bot/src/event_bridge.rs:215-247 | For every terminal event and every later other event of its job there is a drained run that keeps the context. |
| `EventBridgeSystem.DrainTakesExactly` | crates/bot/src/event_bridge.rs:149-155 | Without new events the bridge is never stuck and drains after exactly queued + 2 * parked moves. |
| `Acquisition.WithConfig` | crates/apple/src/acquisition.rs:131-150 | Zero rounds become one, a base delay above thirty seconds becomes thirty, and nothing else changes. |
| `Acquisition.WrapperIsClean` | crates/apple/src/acquisition.rs:331-339 | There is no wrapper exactly when nothing but slashes is left of its trimmed URL; otherwise its URL is the trimmed one without the slashes at its end. |
| `Acquisition.TryCandidates` | crates/apple/src/acquisition.rs:380-448 | The candidate loop tries two endpoints in order with its cancellation checks and messages. |
| `Acquisition.MergeErrors` | crates/apple/src/acquisition.rs:229-233 | Merging keeps the first occurrence of every message. |
| `Acquisition.Connect` | crates/apple/src/acquisition.rs:156-256 | The round loop computes the specified ending, delays and messages included; what that ending is, from the answers of the sources alone, is stated by PrimaryDecides, NativeDecides, CandidatesAnswer and GivesUpIff. |
| `Acquisition.RoundIsHonest` | crates/apple/src/acquisition.rs:258-486 | One round reports a missing rendition only for Atmos, accepts only streams some source offered (EC-3 for Atmos), and never contacts the primary mirror for Atmos. |
| `Acquisition.NoSourceIff` | crates/apple/src/acquisition.rs:258-449 | In an uncancelled round nothing is decided exactly when every configured source failed, told by their answers alone. |
| `Acquisition.CandidatesDecide` | crates/apple/src/acquisition.rs:380-448 | The endpoints are asked in order, the second only when the first failed, under `/api/stream/` and `/stream/`; the first usable stream is accepted, an oversized one stops, two unusable streams mean absence and any failure leaves it open. |
| `Acquisition.AbsenceNeedsBothCandidates` | crates/apple/src/acquisition.rs:380-448 | Through candidate endpoints a rendition counts as absent exactly when both answered with something other than EC-3 and no cancellation came. |
| `Acquisition.FailuresAreReported` | crates/apple/src/acquisition.rs:258-448 | When an uncancelled non-Atmos round finds no source, it contacted every configured one and each left exactly one message. |
| `Acquisition.RoundsAreExplained` | crates/apple/src/acquisition.rs:178-237 | The loop ends at the first round with a verdict or gives up after all rounds or on cancellation, with what those rounds gathered. |
| `Acquisition.RoundsAreBounded` | crates/apple/src/acquisition.rs:178-197 | Between one and the configured number of rounds run, none after a verdict, and the delays slept sum to base * (2^(rounds - 1) - 1). |
| `Acquisition.CancellationWins` | crates/apple/src/acquisition.rs:178-246 | The call reports a cancellation exactly when its last look at the token saw one. |
| `Acquisition.CancelledAfterRound` | crates/apple/src/acquisition.rs:213-215 | A cancellation that is there when a round ends is what the call reports. |
| `Acquisition.OutcomeIsHonest` | crates/apple/src/acquisition.rs:156-256 | A non-Atmos request never yields a missing rendition, an Atmos request never contacts the primary mirror and only returns EC-3, and a returned stream was offered in the last round. |
| `Acquisition.ExhaustedIff` | crates/apple/src/acquisition.rs:229-256 | Exhaustion is reported exactly when no round had a verdict and nobody cancelled; it lists every message of every round once, in order of first occurrence, after the full delays. |
| `Acquisition.FirstAnswerDecides` | crates/apple/src/acquisition.rs:178-228 | After rounds in which every source failed and without cancellation, the first round in which some source decides is the last one and gives the result. |
| `Acquisition.PrimaryDecides` | crates/apple/src/acquisition.rs:267-312 | If the primary mirror serves a stream in that round, a non-Atmos call returns it, in that round and without contacting the wrapper in it; an oversized stream stops the call. |
| `Acquisition.NativeDecides` | crates/apple/src/acquisition.rs:350-380 | If the primary mirror did not decide, the native wrapper's stream is returned (for Atmos only EC-3, otherwise the rendition is missing); an offline service or rejected credentials stop the call at once; a missing rendition is an error for anything but Atmos. |
| `Acquisition.CandidatesAnswer` | crates/apple/src/acquisition.rs:381-448 | If the primary mirror did not decide, the first usable candidate stream is returned, an oversized one stops the call, and only two unusable streams mean a missing rendition. |
| `Acquisition.GivesUpIff` | crates/apple/src/acquisition.rs:239-256 | The call gives up exactly when nobody cancelled and in every round every configured source failed, told by their answers alone. |
| `Timestamps.ReadFraction` | crates/lyrics/src/lib.rs:764-773 | The fold and the scaling loop compute the fraction; a non-digit refuses it. |
| `Timestamps.ReadMillis` | crates/lyrics/src/lib.rs:755-775 | One, two or three colon-separated parts are read, anything else is refused. |
| `Timestamps.ReadsIff` | crates/lyrics/src/lib.rs:755-770 | A spelling is accepted exactly when it has at most three fields, 64-bit numbers before a field of seconds that has only digits behind its first dot. |
| `Timestamps.SpellingsMean` | crates/lyrics/src/lib.rs:755-775 | h:m:s.f, m:s.f, s.f and s mean that many milliseconds modulo 2^64, the fraction rounded down. |
| `Timestamps.FractionRoundsDown` | crates/lyrics/src/lib.rs:764-773 | The milliseconds are the decimal fraction of a second, rounded down. |
| `Timestamps.RoundTrip` | crates/lyrics/src/lib.rs:755-783 | For every 64-bit t, reading the printed timestamp gives t back. |
| `Timestamps.FormatIsIdempotent` | crates/lyrics/src/lib.rs:777-783 | Formatting a formatted timestamp changes nothing. |
| `Timestamps.SameInstantSamePrint` | crates/lyrics/src/lib.rs:777-783 | Two accepted spellings print the same exactly when they mean the same instant. |
| `Timestamps.HoursAreSixtyMinutes` | crates/lyrics/src/lib.rs:755-775 | h:m:s.f and (60h+m):s.f are the same instant. |

## Left out

- HTTP, Telegram, websockets, SQL, file contents, hashing, compression and encryption: their answers are parameters, their failures are inputs.
- Regular expressions, audio decoding, tag writing, dashboards, captions and health labels.
- Panicking queue callbacks and dropped futures: callbacks are assumed to return.
- 64-bit overflow of delays, event and queue counters, and the unique-suffix counter; 32-bit overflow of playlist positions and of the duration difference in the track matcher.
- Ripper.RipOnce: assumes the suffix counter does not overflow and that removing the reserved file works; other jobs enter through the names they hold at each reservation attempt and the suffixes they draw before each of ours, and leave the reserved file alone afterwards.
- Ripper.Rip: the private staging lane and its clean-up are not part of the directory; delays and jitter are not timed.
- Ripper.ReserveName: the names other jobs hold may change at every attempt but come from one finite set.
- PlaylistSystem.RunsRefineLists: playlists and tracks are neither created nor deleted during a run; a reorder transaction is one step, so an insert that commits while it is open is not split further.
- ZipPlan.PlanZipParts: excludes overflow of the entry overhead itself, which needs more than 2^54 tracks; ZIP writing and the manifest are not modelled.
- ZipPlan.PartNamesAreDistinct: the file stem always holds a dash, because the planner joins artist and album with one.
- Filename.CollisionNamesAreInjective: for names whose extension leaves room for the id; all names of the tagger do.
- Catalog.BuildCanonicalTracks: the normalization of titles and artists is any function; Unicode lower-casing is not spelled out.
- PlaybackSync.SyncRoom.Disconnect: a hash map has no order, so the heir of the active role is any device that is left.
- Albums.AlbumsTable.ReplaceAlbums: the advisory lock and row locks make it one step; row ids and creation times are not kept; `fault` stands for every failure of the database itself.
- Albums.AlbumsTable.DeleteAlbums: its lookup and its delete are one step; what others do to it in between is `Albums.SplitDeleteConservesIff`.
- The upsert of a single archive part (`save_album`), which overwrites a message id without reporting it; favorites; creating and deleting playlists; deleting tracks.
- Playlists.PlaylistStore.AddTracks: a call with nobody in between; interleaved statements are the subject of PlaylistSystem. The time stamps themselves are not kept; `budget` stands for a database that fails between two inserts.
- EventBridgeSystem.ForgottenIff: that the orchestrator emits a job's terminal event last is an assumption about code outside this model.
- EventBridge.Bridge.Emit: a closed channel is left out, it needs a consumer that ended; dashboard refreshes after each event are presentation.
- Acquisition.Connect: error texts are given as rendered; the health policy's success and failure records and progress callbacks are not modelled; the exhaustion message is kept as its parts.
- Timestamps.ReadMillis: sums wrap around at 2^64 as in a release build; a debug build would panic there.
