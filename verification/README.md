# ASP verification model

ASP is an agent-oriented remote session protocol: a client follows a durable event journal, edits and
downloads files, runs commands and watches terminals over connections that break and come back. This
project models the parts of it whose correctness is not visible in one function and proves them for
every input, every reachable state or every run.

* **File patches** (`LineSplit`, `PatchApply`, `PatchLcs`, `PatchScript`, `PatchLines`, `PatchDerive`,
  `PatchAlign`, `PatchChoice`, `PatchFailures`):
  splitting, the flat longest-common-subsequence table, the walk through it and the alignment it finds,
  coalescing, the byte path, the choice of what to send, the server's application of it, and the edits for
  which the two do not fit.
* **Durable cursors and sessions** (`Subscription`, `SubscriptionAcks`, `SubscriptionProgress`, `SessionStore`,
  `SessionProtocol`, `SessionSaves`): one consumer following a journal through disconnects, compaction and
  crashes; many processes sharing one locked cursor file; and, for both, that the work gets done.
* **Bytes that survive retries** (`Download`, `DownloadProgress`, `LogReplay`): the resumable download with its
  checkpoint and temporary file, and process output replayed after every reconnect.
* **Codecs and terminals** (`Frames`, `PtyDatagrams`, `PtyScreen`, `PtyOwner`, `PtyResize`): the frame envelope, the
  terminal datagrams, the client's screen under lossy datagrams, and the terminal owner with its caches.
* **Bounded components** (`Shaper`, `WorkspaceCache`, `WorkspaceQuery`, `AgentInput`): the benchmark's UDP
  shaper, the workspace cache and the expansion of compact replies from it, and the bounded line reader.

`Base` holds the shared types. A protocol is a state machine: `Next` is the effect of one action and a
run is any sequence of actions, so a disconnect, a crash or another process can come between any two
steps. Loops over local vectors and objects with fields are methods and classes, each proved against a
function of its inputs, and the theorems are about that function.

## Where the code does not do what is intended

* **The line path drops the end of the file.** The last edit of `derive_line_patch_ranges` ends at the
  loop's cursors, and the loop stops when one file is exhausted. `PatchDerive.LinePatchApplies` states
  what applying the ranges gives, `LineResultExact` that it is the new file if and only if the walk
  reaches both ends, `LastLineChangeIsLost` and `SharedLastLineSuffices` two conditions on the last lines
  alone, and `ClosedLinePatchApplies` that closing the edit at both ends always gives the new file.
  `PatchAlign.LineResultFollowsAlignment` says it of the matched lines alone, and
  `NothingSharedGivesNothing` that two files without a common line give the empty file.
  `LinePathCounterexample` is a small failing edit; `PatchFailures.SentPatchLosesText` is a family of edits
  that the client does send as ranges, that the server accepts, and that lose text. The comments of
  `derive_file_patch_ranges` promise ranges that recover the edit; the model follows the code.
* **The client can send more ranges than the server takes.** The byte path has no limit on the number of
  ranges, the server refuses more than 4096, and the size rule does not prevent it.
  `PatchChoice.RangeCountExact` gives the number of ranges from the two files, `ChoosePatch` states in these
  terms exactly when the intended file arrives, `PatchFailures.ScatteredEditsAreRefused` gives every pair of
  files with one changed byte in 34 that is long enough, and `SmallestRefusedEdit` the shortest of them.
* **An acknowledgement can overtake the saved cursor**, in two ways: an event is acknowledged before it is
  saved, and the boundary of a new subscription is acknowledged although the cursor reached it through
  output that was not saved. `SubscriptionAcks.RunCoveredExactly` says that a run keeps acknowledgements
  under the saved cursor if and only if it takes neither step, `AckCanOvertakeSavedCursor` and
  `BoundaryCanOvertakeSavedCursor` are runs that take one each, and `Subscription.AckNeverAheadOfCursor` and
  `AcknowledgedWasDelivered` say what holds instead.
* **A requested start below the saved cursor prints nothing old**, because everything up to the saved
  cursor is dropped as a duplicate. `Subscription.PrintedExactlyOnce` says so for every run, and
  `SubscriptionAcks.OldStartPrintsNothingOld` shows it at one.
* **A resize changes the screen without a new generation.** One screen per generation is enough for every
  client to be on the shown screen of its generation (`PtyScreen.OneScreenPerGenerationSuffices`).
  `HeldScreensExactly` says that clients hold only shown screens if and only if the shown screens are closed
  under taking a delta for the wrong screen of its base's generation, and `PtyResize.ResizeBreaksScreen`
  follows a terminal resized away and back to a client that ends on a screen that was never shown.
* **The periodic full screen often does not bring a client back.** The comment on
  `send_pty_state_delta_or_full` promises that a client which missed a delta recovers with the next full
  screen. The server announces a generation on the reliable stream before it sends that generation's screen,
  and the client drops a full screen that is not strictly newer than everything it has seen.
  `PtyScreen.StaleClientRecoversExactly` says when such a client recovers, and `AnnouncedScreenIsLost` that
  after the announcement the screen and every delta that builds on it pass without effect.
* **The workspace cache's byte counter drifts.** Replacing an entry by one that is too large removes it
  without giving its bytes back. `WorkspaceCache.DriftIsLostBytes` says that in every run the counter is
  above the true sum by exactly these bytes, `DriftGrows` that they accumulate, and `DriftedCacheForgets`
  that after two such replacements the cache can hold one result at a time; the real bounds hold anyway.

## Model

| member | source | states |
|---|---|---|
| `PatchApply.ApplyLength` | crates/asp-server/src/main.rs:17254-17310 | Conservation: the patched length plus the bytes removed is the old length plus the bytes inserted, for every well-formed range list. |
| `PatchApply.CheckRanges` | crates/asp-server/src/main.rs:17254-17310 | The validation loop accepts exactly the sorted, disjoint and in-bounds range lists, and returns the bytes they remove and insert. |
| `PatchApply.Splice` | crates/asp-protocol/src/lib.rs:384-394 | One pass over the ranges in old-file coordinates produces the file that the ranges describe. |
| `PatchApply.Materialize` | crates/asp-server/src/main.rs:17254-17310 | Success if and only if there is a range, at most 4096 of them, all well-formed, and the result is within the size limit; then the result is the patched file. |
| `PatchLcs.LcsIsMaximum` | crates/asp-client/src/main.rs:9902-9914 | No common subsequence of the two line sequences is longer than the value the recurrence computes. |
| `PatchLcs.LcsIsReached` | crates/asp-client/src/main.rs:9902-9914 | Some common subsequence has exactly that length. |
| `PatchLcs.FillTable` | crates/asp-client/src/main.rs:9896-9914 | Every cell of the flat `u32` table holds the longest-common-subsequence length of the two suffixes; no index or value leaves its range. |
| `PatchScript.ScriptApplies` | crates/asp-client/src/main.rs:9973-9982 | The ranges built from edits that tile both files turn the old file into the new one, up to where the edits end. |
| `PatchScript.CoalesceEdits` | crates/asp-client/src/main.rs:9958-9971 | The in-place coalescing loop computes the specified merge. |
| `PatchScript.CoalesceKeepsScript` | crates/asp-client/src/main.rs:9958-9971 | Merging edits across small unchanged gaps does not change what they do. |
| `PatchScript.CoalesceSeparates` | crates/asp-client/src/main.rs:9958-9971 | Coalesced edits lie more than 32 old bytes apart and are no more numerous. |
| `PatchScript.CoalesceJoins` | crates/asp-client/src/main.rs:9958-9971 | Two lists of edits are coalesced across their boundary if and only if the unchanged gap there is at most 32 bytes; otherwise side by side. |
| `LineSplit.SplitPatchLines` | crates/asp-client/src/main.rs:9985-9998 | The scan yields the specified spans. |
| `LineSplit.SpansSplit` | crates/asp-client/src/main.rs:9985-9998 | The spans tile the file, each through its first newline, only the last possibly unterminated. |
| `LineSplit.SplitUnique` | crates/asp-client/src/main.rs:9985-9998 | Nothing else tiles the file that way. |
| `LineSplit.OffsetStep` | crates/asp-client/src/main.rs:10000-10002 | Line offsets strictly increase and delimit exactly the lines. |
| `PatchLines.WalkMatchesLcs` | crates/asp-client/src/main.rs:9923-9945 | The walk matches exactly as many lines as the longest common subsequence has. |
| `PatchLines.WalkIsScript` | crates/asp-client/src/main.rs:9920-9957 | At its end the walk's edits tile both files up to its cursors, and there are at most as many as matched lines, so the 4096-edit guard never fires. |
| `PatchLines.Walk` | crates/asp-client/src/main.rs:9920-9945 | The loop over the table takes the walk's steps, of which the `PatchAlign` rows say what they find. |
| `PatchDerive.DeriveLinePatchRanges` | crates/asp-client/src/main.rs:9890-9983 | Ranges exactly when both files are within the line and cell limits, and then those of the walk, whose edits `PatchAlign.WalkEditsGaps` pins down and whose effect `LinePatchApplies` gives. |
| `PatchDerive.LinePatchApplies` | crates/asp-client/src/main.rs:9890-9983 | Applied to the old file they give the new file up to the walk's cursor followed by the rest of the old file; they are well-formed and more than 32 bytes apart. |
| `PatchDerive.LineResultExact` | crates/asp-client/src/main.rs:9946-9953 | That is the new file if and only if the walk reaches the end of both files. |
| `PatchDerive.LastLineChangeIsLost` | crates/asp-client/src/main.rs:9946-9953 | Whenever the files differ in their last line the result is wrong. |
| `PatchDerive.SharedLastLineSuffices` | crates/asp-client/src/main.rs:9923-9953 | A last line that both files share and that occurs nowhere else makes the result right. |
| `PatchDerive.LinePathCounterexample` | crates/asp-bench/src/main.rs:618-706 | A two-line file edited into three lines yields one deletion that loses the inserted text. |
| `PatchDerive.ClosedLinePatchApplies` | crates/asp-client/src/main.rs:9946-9953 | With the last edit closed at both ends, the ranges always give the new file. |
| `PatchDerive.ClosedAgreesWhenWalkCompletes` | crates/asp-client/src/main.rs:9946-9953 | The two variants are the same list exactly when the walk reaches both ends. |
| `PatchAlign.AlignmentBound` | crates/asp-client/src/main.rs:9902-9914 | No alignment, a strictly increasing list of pairs of equal lines, is longer than the value in the table. |
| `PatchAlign.WalkPairsLongest` | crates/asp-client/src/main.rs:9923-9945 | The pairs the walk matches are as many; with `WalkPairsAlign` they are a longest alignment. |
| `PatchAlign.WalkPairsAlign` | crates/asp-client/src/main.rs:9923-9945 | The pairs the walk matches are an alignment. |
| `PatchAlign.Exchange` | crates/asp-client/src/main.rs:9938-9944 | Where a longest alignment uses a base line the walk passes over, another one without it has target lines that come no later. |
| `PatchAlign.TargetsComeFirst` | crates/asp-client/src/main.rs:9938-9944 | The tie-break: of all longest alignments of any two line sequences, the walk finds one whose target lines come first in dictionary order. |
| `PatchAlign.FirstBaseLine` | crates/asp-client/src/main.rs:9938-9944 | Which base line it takes: the first equal one for the region's first target line, else the last one from which a longest alignment still starts. |
| `PatchAlign.RestOfPairs` | crates/asp-client/src/main.rs:9923-9945 | Behind its first pair the walk goes on as if it had started there, so the two choices above fix all pairs. |
| `PatchAlign.EndFollowsLastPair` | crates/asp-client/src/main.rs:9923-9945 | The walk ends right behind its last target line, and behind the whole base unless that line was the target's last. |
| `PatchAlign.WalkEditsGaps` | crates/asp-client/src/main.rs:9923-9945 | The edits of the walk are exactly the gaps of the alignment, one each, and its anchors end behind the last pair. |
| `PatchAlign.LineResultFollowsAlignment` | crates/asp-client/src/main.rs:9946-9983 | For non-empty files the result is the target up to its last matched line; if that is the target's last line, the base behind its partner follows; with no match it is empty. |
| `PatchAlign.NothingSharedGivesNothing` | crates/asp-client/src/main.rs:9938-9953 | Two non-empty files without a common line: applying the ranges gives the empty file. |
| `PatchChoice.CommonPrefix` | crates/asp-client/src/main.rs:9762-9767 | The bytes counted are equal and the next ones differ. |
| `PatchChoice.CommonSuffix` | crates/asp-client/src/main.rs:9769-9775 | The same from the end. |
| `PatchChoice.GreedyEndsLongest` | crates/asp-client/src/main.rs:9830-9833 | Longest prefix, then longest suffix of the rest, keeps at least as many bytes as any other pair of shared ends. |
| `PatchChoice.FindRuns` | crates/asp-client/src/main.rs:9847-9863 | Every byte of a run differs and every byte between runs is equal. |
| `PatchChoice.DerivedByteRanges` | crates/asp-client/src/main.rs:9865-9882 | Every range keeps its length, begins and ends on a differing byte and holds no unchanged stretch longer than 32 bytes; ranges are more than 32 bytes apart; all bytes outside them are equal. |
| `PatchChoice.DeriveFilePatchRanges` | crates/asp-client/src/main.rs:9829-9883 | The derived ranges give the new file if and only if the lengths are equal, the line limits are exceeded or the walk completes; equal lengths give byte ranges, other lengths the line ranges or one range. |
| `PatchChoice.Select` | crates/asp-client/src/main.rs:10069-10083 | Ranges if and only if allowed, more than one and cheaper than the file; a contiguous patch is cheaper, the smallest contiguous one, and right within the server's limits; a whole file only when no contiguous patch would save anything. |
| `PatchChoice.RangeCountExact` | crates/asp-client/src/main.rs:9847-9882 | Files of equal length have exactly one range per differing byte whose 33 preceding bytes, as far as there are any, are equal. |
| `PatchChoice.ChoosePatch` | crates/asp-client/src/main.rs:10043-10088 | The server ends with the intended file if and only if its size limits admit both files and, when ranges are sent, the files have at most 4096 such edits or different lengths and the ranges round-trip; nothing is sent exactly when the file is unchanged. |
| `PatchFailures.OneRangePerEdit` | crates/asp-client/src/main.rs:9847-9882 | Files that differ in one byte of every 34 have exactly one range per edit, each one byte long. |
| `PatchFailures.ScatteredEditsAreRefused` | crates/asp-client/src/main.rs:9816-9820 | With more than 4096 such edits the client's choice is the derived ranges, because they are cheaper than the file, and the server refuses them. |
| `PatchFailures.SentPatchLosesText` | crates/asp-client/src/main.rs:1804-1834 | For every long line: the client's choice is two derived ranges, the server accepts them, and the stored file lacks the two lines that were to replace the last one. |
| `Subscription.NextMatchingIs` | crates/asp-server/src/main.rs:10132-10230 | The next streamed event matches the filter and no matching event lies between. |
| `Subscription.FilterMeaning` | crates/asp-server/src/main.rs:10114-10131 | A filter asks for everything or for one process, with its output or without. |
| `Subscription.EveryRunKeepsInvariant` | crates/asp-client/src/main.rs:8013-8211 | Every state of every run of appends, subscriptions, notifications, saves, disconnects, crashes and worker steps satisfies the protocol invariant. |
| `Subscription.PrintedExactlyOnce` | crates/asp-client/src/main.rs:8037-8163 | Only matching journal events above the saved start and up to the cursor are printed, in increasing order; without a compaction jump, exactly all of them above the requested start too. |
| `Subscription.AckNeverAheadOfCursor` | crates/asp-client/src/main.rs:6331-6365 | No acknowledgement, coalesced or not, exceeds the cursor of the process that sent it. |
| `Subscription.AcknowledgedWasDelivered` | crates/asp-client/src/main.rs:8140-8150 | Across crashes, every matching event the server was told about was printed by some process, skipped on request or replaced by a snapshot. |
| `Subscription.PersistedWasDelivered` | crates/asp-client/src/main.rs:8145-8150 | So was every matching event up to the saved cursor, which bounds it from above; `SubscriptionProgress.SaveCommits` and `CrashRepeatsOnlyUnsaved` bound it from below. |
| `SubscriptionAcks.StepCovered` | crates/asp-client/src/main.rs:8113-8151 | A step breaks the bound of acknowledgements by the saved cursor if and only if it queues a newly printed event, or the boundary of an uncompacted subscription that lies above the saved cursor, on a channel with room. |
| `SubscriptionAcks.RunCoveredExactly` | crates/asp-client/src/main.rs:8013-8211 | In every state of a run all acknowledgements sent or queued are covered by the saved cursor, if and only if the run takes no such step. |
| `SubscriptionAcks.AckCanOvertakeSavedCursor` | crates/asp-client/src/main.rs:8138-8150 | A run prints event 1, and the workers can acknowledge it while the saved cursor is 0. |
| `SubscriptionAcks.BoundaryCanOvertakeSavedCursor` | crates/asp-client/src/main.rs:8113-8119 | A run prints output without saving it, reconnects, and the boundary can be acknowledged while the saved cursor is 0. |
| `SubscriptionAcks.OldStartPrintsNothingOld` | crates/asp-client/src/main.rs:8134-8137 | A run that asks for everything with event 1 saved as seen prints event 2 alone. |
| `SubscriptionProgress.SaveCommits` | crates/asp-client/src/main.rs:8106-8150 | In every run a save makes the saved cursor equal to the cursor and, if the current worker has room, queues the boundary it was waiting for. |
| `SubscriptionProgress.BoundaryIsCommitted` | crates/asp-client/src/main.rs:8099-8133 | In every run a caught-up marker, or the boundary of a compacted history, is after its save covered by the saved cursor and queued for acknowledgement. |
| `SubscriptionProgress.EveryRunSaves` | crates/asp-client/src/main.rs:8134-8151 | In every state of every run, each printed event that is not output and each compaction jump is saved, unless its save is the next step. |
| `SubscriptionProgress.CrashRepeatsOnlyUnsaved` | crates/asp-client/src/main.rs:8144-8151 | A printed event above the saved cursor is output, or the very last one with its save still due; so that is all a crash can repeat. |
| `SubscriptionProgress.CanCatchUp` | crates/asp-client/src/main.rs:8037-8163 | From every reachable state whose next position the server accepts, the subscription can go on alone until every matching event above the requested start is printed or replaced by a snapshot. |
| `SessionStore.InsertTouchesOneEntry` | crates/asp-client/src/main.rs:9508-9540 | A save changes its own consumer's entry and neither another consumer's nor the legacy one. |
| `SessionStore.InsertStores` | crates/asp-client/src/main.rs:9508-9540 | A save leaves its own session and at least its own cursor; of the same session the larger cursor, of another session nothing. |
| `SessionStore.SavedIsVisible` | crates/asp-client/src/main.rs:9398-9416 | A save is visible to its own key and, under the legacy key, to every consumer without an entry of its own. |
| `SessionStore.StoredCursorIsMaximum` | crates/asp-client/src/main.rs:9508-9540 | After any saves for one session the stored cursor is the largest saved, and untouched entries are as before. |
| `SessionStore.SaveOrderIsIrrelevant` | crates/asp-client/src/main.rs:9598-9603 | Two interleavings of the same saves store the same entry. |
| `SessionProtocol.EveryRunKeepsInvariant` | crates/asp-client/src/main.rs:8402-8467 | In every interleaving of processes, with crashes, at most one is inside the lock and works on the current file. |
| `SessionProtocol.InsertKeepsVisible` | crates/asp-client/src/main.rs:9398-9416 | Storing an entry never changes which session any namespace sees, through its own entry or the legacy fallback. |
| `SessionProtocol.OneSessionPerNamespace` | crates/asp-client/src/main.rs:8402-8467 | All processes of a namespace that get a session get the same one. |
| `SessionProtocol.NoOpenOnceSaved` | crates/asp-client/src/main.rs:8402-8467 | No session is opened once an entry is visible. |
| `SessionProtocol.NoSaveIsLost` | crates/asp-client/src/main.rs:9484-9603 | In every run the file is the published saves applied in turn; all saves of a key name one session, its entry holds their maximum, and a key without saves keeps its entry. `SessionSaves.StartedIsStored` says what is published. |
| `SessionSaves.StartedIsStored` | crates/asp-client/src/main.rs:9542-9603 | In every run the publication that completes a save or a creation adds exactly one save, of the session and cursor it started with, leaves all other entries alone, and in every later state the key's entry is of that session and has reached that cursor. |
| `SessionSaves.CanFinish` | crates/asp-client/src/main.rs:8402-8467 | From every reachable state every living process can come to hold a session, having published what it carried, without any process failing and whatever the server answers. |
| `SessionSaves.Release` | crates/asp-client/src/main.rs:8419-8446 | Whoever holds the lock can finish and free it by steps of its own. |
| `SessionSaves.NewProcessAttaches` | crates/asp-client/src/main.rs:8409-8418 | A new process whose key sees a session gets exactly that session, and nothing else changes. |
| `SessionSaves.RecheckFinds` | crates/asp-client/src/main.rs:8419-8424 | Under the lock a process takes over a session that has become visible and frees the lock, or goes on to create one. |
| `SessionSaves.OpenOnlyWithoutEntry` | crates/asp-client/src/main.rs:8402-8467 | In every run a request to open a session leaves only while its key sees none. |
| `SessionSaves.EveryOpenIsRecorded` | crates/asp-client/src/main.rs:8402-8467 | The record of requests that `NoOpenOnceSaved` speaks of has one entry per request. |
| `Download.DestinationOnlyVerified` | crates/asp-client/src/main.rs:7094-7228 | Against any server and any crash, the destination is what it was or bytes whose size, within 1 GiB, and digest were declared; a header in use was declared for the requested path. |
| `Download.SuccessMeansDelivered` | crates/asp-client/src/main.rs:7094-7228 | A download that reports success with a digest has left bytes with that digest which the server declared for the requested path. |
| `Download.CheckpointNamesPrefix` | crates/asp-client/src/main.rs:6985-7228 | With honest chunks, whenever a checkpoint exists the temporary file is a prefix of the content it names, in every state of every run; `DownloadProgress` says what is made of it. |
| `Download.MismatchUnreachable` | crates/asp-client/src/main.rs:7094-7228 | If the server always sends the whole rest, no download ends in a size or digest mismatch. |
| `DownloadProgress.LaunchAsksForTheRest` | crates/asp-client/src/main.rs:7124-7178 | A launch asks for exactly the missing bytes, expecting the checkpoint's size and digest, if and only if checkpoint and temporary file can be resumed for that path; an unreadable checkpoint fails, anything else starts over with clean sidecars. |
| `DownloadProgress.InterruptedResumes` | crates/asp-client/src/main.rs:7215-7219 | In every honest run a stream that breaks off is asked for again right behind what has arrived. |
| `DownloadProgress.CrashResumes` | crates/asp-client/src/main.rs:7094-7164 | In every honest run a crash loses at most the unsynchronised tail: the next launch for the path resumes behind what was kept. |
| `DownloadProgress.HonestAnswerCompletes` | crates/asp-client/src/main.rs:6985-7214 | However the rest of the file is cut into chunks, an honest full-range answer ends in success with exactly the named file and no sidecars. |
| `DownloadProgress.LaunchCompletes` | crates/asp-client/src/main.rs:7094-7214 | So from an idle state, resumed or fresh, launch and honest answer together deliver the file. |
| `DownloadProgress.RejectionDiscards` | crates/asp-client/src/main.rs:7220-7226 | A response is accepted if and only if it is the next one of its stream; any other, or a refusal, removes both sidecars, reports failure and leaves the destination. |
| `DownloadProgress.VerdictExactly` | crates/asp-client/src/main.rs:7189-7203 | A complete stream is renamed exactly when size and digest are right; otherwise the mismatch is reported and the sidecars stay. |
| `LogReplay.JoinedIsLog` | crates/asp-client/src/main.rs:5100-5112 | Records that tile a range and are slices of a log, joined, are exactly that range of it. |
| `LogReplay.ShowUnseen` | crates/asp-client/src/main.rs:5100-5112 | A chunk is accepted if and only if it leaves no gap and does not overflow; the records then tile up to the larger of what was seen and the chunk's end. |
| `LogReplay.LogsOnce` | crates/asp-client/src/main.rs:4266-4394 | For any responses and any earlier progress the records tile; the attempt completes if and only if its own responses announce an acceptable range and tile it, and then everything up to its end was shown. |
| `LogReplay.LogsWithRetry` | crates/asp-client/src/main.rs:4204-4263 | The read succeeds if and only if some attempt within the retry budget delivers the whole range announced so far, the first such attempt ends it, and its announcement is the reported length; the records tile whatever the servers send, and from honest ones, joined, are the log from the start offset on, exactly the announced range on success. |
| `LogReplay.WholeRangeCompletes` | crates/asp-client/src/main.rs:4266-4394 | However a range is cut into chunks, a server that announces and sends all of it completes the attempt. |
| `LogReplay.AnsweredReadSucceeds` | crates/asp-client/src/main.rs:4204-4263 | So the read succeeds as soon as one attempt within the budget is answered in full. |
| `LogReplay.ExecOutputCursor.Show` | crates/asp-client/src/main.rs:4552-4574 | An output event is shown if and only if it leaves no gap and does not overflow; it moves only its own stream's cursor, to the larger of the two ends, and keeps both streams tiled. |
| `LogReplay.ExecOnce` | crates/asp-client/src/main.rs:4493-4622 | An attempt either shows every byte it delivered or stops at an event that does not connect; a replay from the start always goes through, and cursors never fall. |
| `LogReplay.ExecReplays` | crates/asp-client/src/main.rs:4101-4160 | Over any number of replays the bytes shown of each stream are the beginning of that stream, once, and reach at least as far as every attempt that went through, in particular every replay from the start. |
| `PtyScreen.ChangedRowsOrdered` | crates/asp-server/src/main.rs:15082-15106 | The delta holds only rows that changed, with their new text, in strictly increasing order. |
| `PtyScreen.ChangedRowsApply` | crates/asp-client/src/main.rs:8757-8759 | Applying the changed rows of two screens to the first gives the second. |
| `PtyScreen.PlainPtyScreenState.ApplyDelta` | crates/asp-client/src/main.rs:8736-8767 | Accepted exactly under the base, geometry, order and size checks; a rejected delta leaves the object as it was. |
| `PtyScreen.DeltaRoundTrip` | crates/asp-client/src/main.rs:8736-8767 | The server's delta between two screens is accepted on the first and yields the second. |
| `PtyScreen.ScreenFollowsHistory` | crates/asp-client/src/main.rs:8870-8939 | For any loss, duplication and reordering of full and delta datagrams of one history, the client's screen is that history's screen at its own generation, and the newest generation never falls. |
| `PtyScreen.StaleClientRecoversExactly` | crates/asp-server/src/main.rs:15140-15151 | A client behind a full screen is brought to the end of its chain of deltas if and only if it has seen no generation as new and takes the deltas there are; otherwise the screen and the chain leave it as it was. |
| `PtyScreen.AnnouncedScreenIsLost` | crates/asp-server/src/main.rs:14990-15051 | Once the reliable stream has announced the generation, the full screen and every delta of its chain pass without effect. |
| `PtyScreen.DeltaAppliesExactly` | crates/asp-client/src/main.rs:8873-8887 | A delta of the history has an effect if and only if the client negotiated deltas, holds exactly its base and has seen nothing newer; then the client is on the delta's screen, otherwise it is left exactly as it was. |
| `PtyScreen.DeltaPaintsExactly` | crates/asp-client/src/main.rs:8873-8887 | An applied delta is painted if and only if the two screens look different. |
| `PtyScreen.NewerScreenIsShown` | crates/asp-client/src/main.rs:8839-8939 | A newer full screen of either kind is painted; a plain one becomes the base of deltas, a rich attachment drops the base. |
| `PtyScreen.NewestScreenIsShown` | crates/asp-client/src/main.rs:8827-8939 | Wherever it arrives among the messages, the newest full screen is what the client ends up showing. |
| `PtyScreen.NothingNewerIsMissed` | crates/asp-client/src/main.rs:8827-8939 | In every run the client has reached the generation of every message of its own session but the deltas. |
| `PtyScreen.OneScreenPerGenerationSuffices` | crates/asp-client/src/main.rs:8870-8939 | If a generation names one shown screen, every client under any drawn messages is on the shown screen of its generation. |
| `PtyScreen.DeltaMixes` | crates/asp-client/src/main.rs:8736-8767 | A delta taken from one screen is accepted on another exactly when generation and geometry agree, and then mixes the two rows by rows. |
| `PtyScreen.HeldScreensExactly` | crates/asp-client/src/main.rs:8870-8939 | Every client under any drawn messages holds a shown screen, if and only if it takes no deltas or the shown screens are closed under such mixing. |
| `PtyResize.ResizeAwayAndBack` | crates/asp-pty/src/lib.rs:321-336 | After two resizes the owner's snapshot has the generation and geometry it had before and different rows; the next chunk of output is one generation on. |
| `PtyResize.ResizeBreaksScreen` | crates/asp-pty/src/lib.rs:321-336 | A client that handles the owner's two snapshots and the delta from the second to the next one ends on a screen the owner showed after no prefix of its operations. |
| `PtyOwner.PageIsHistory` | crates/asp-pty/src/lib.rs:436-442 | The rows visible at a scroll offset are the corresponding history rows. |
| `PtyOwner.SnapshotFields` | crates/asp-pty/src/lib.rs:338-363 | Both snapshots carry the terminal's size, cursor and rows on view, row by row. |
| `PtyOwner.TrimFront` | crates/asp-pty/src/lib.rs:263-266 | Popping from the front leaves the last 64 KiB. |
| `PtyOwner.CollectPages` | crates/asp-pty/src/lib.rs:429-444 | Paging from old to new returns the newest requested history rows in order, without a repeat or a hole at page borders. |
| `PtyOwner.PtyState.Read` | crates/asp-pty/src/lib.rs:250-275 | One chunk advances the generation by one, extends the output and drops both caches; the tail stays the last 64 KiB of all output. |
| `PtyOwner.PtyState.Resize` | crates/asp-pty/src/lib.rs:321-336 | Drops both caches and leaves the generation alone. |
| `PtyOwner.PtyState.GetSnapshot` | crates/asp-pty/src/lib.rs:338-363 | Cached or not, the result is a fresh render, and exactly one of the two counters moves. |
| `PtyOwner.PtyState.GetRichSnapshot` | crates/asp-pty/src/lib.rs:451-475 | Cached or not, the result is a fresh render, and exactly one of its two counters moves. |
| `PtyOwner.PtyState.ParserScrollback` | crates/asp-pty/src/lib.rs:415-445 | Returns the newest rows of the history in order and restores the view. |
| `PtyOwner.Drive` | crates/asp-pty/src/lib.rs:250-475 | After any interleaving of chunks, resizes and snapshot or scrollback calls, both snapshots are renders at the start generation plus the chunk count, with the last 64 KiB of all output. |
| `Frames.U32IsBigEndian` | crates/asp-protocol/src/lib.rs:1346 | The four length bytes are a positional number, the first byte weighing most. |
| `Frames.U32ComparesBytewise` | crates/asp-protocol/src/lib.rs:1468 | So two lengths compare as their bytes do, first byte first. |
| `Frames.FrameRoundTrip` | crates/asp-protocol/src/lib.rs:1329-1423 | A payload encodes if and only if it is within the limit, and then decodes to itself, whatever the heuristic decided. |
| `Frames.FrameSize` | crates/asp-protocol/src/lib.rs:1329-1360 | A frame is at most seven bytes longer than its payload; zlib is used only when tried and strictly shorter; the header announces the payload length. |
| `Frames.DecodedLengthIsAnnounced` | crates/asp-protocol/src/lib.rs:1367-1452 | For arbitrary bytes, a decoded payload has exactly the length the header announces, within the limit, and the header alone determines it. |
| `Frames.PlainFrameCanonical` | crates/asp-protocol/src/lib.rs:1367-1423 | A plain frame that decodes is the only plain frame for its payload. |
| `Frames.WrittenFrameReads` | crates/asp-protocol/src/lib.rs:1461-1506 | A written frame is read back from the front of any stream, leaving the rest, in both protocol versions. |
| `Frames.StreamRoundTrip` | crates/asp-protocol/src/lib.rs:1461-1506 | Reading the concatenation of any frames returns their payloads in order and a clean end. |
| `Frames.CutFrameFails` | crates/asp-protocol/src/lib.rs:1484-1506 | A frame cut anywhere inside is reported as truncated, never as a shorter message. |
| `Frames.CutStreamReadsPrefix` | crates/asp-protocol/src/lib.rs:1484-1506 | A stream cut anywhere reads as a prefix of the messages, with a clean end if and only if the cut falls between two frames. |
| `PtyDatagrams.RichRoundTrip` | crates/asp-protocol/src/lib.rs:1190-1283 | A rich datagram that encodes fits the budget and decodes to itself. |
| `PtyDatagrams.RichFormExactly` | crates/asp-protocol/src/lib.rs:1190-1229 | Nothing is sent exactly when no form fits; the compressed kind exactly when negotiated, tried, within the budget and strictly shorter; so a datagram is never longer than its plain form. |
| `PtyDatagrams.DeltaDatagramRoundTrip` | crates/asp-protocol/src/lib.rs:997-1037 | A delta is sent exactly when it is within the row, size and budget limits, and then decodes to itself. |
| `PtyDatagrams.KindsAreDisjoint` | crates/asp-protocol/src/lib.rs:997-1283 | At most one of the delta, rich and plain decoders accepts a payload; a payload with a known prefix is never read as a plain one. |
| `PtyDatagrams.DeltaDispatched` | crates/asp-client/src/main.rs:8873-8887 | A sent delta is dispatched as itself by a client that negotiated deltas and ignored by any other. |
| `PtyDatagrams.RichDispatched` | crates/asp-client/src/main.rs:8888-8915 | A sent rich state is dispatched as itself, compressed or not. |
| `PtyDatagrams.PlainDispatched` | crates/asp-client/src/main.rs:8916-8939 | A plain state, which carries no prefix, passes the other two decoders and is dispatched as itself. |
| `Shaper.WireTimeCoversBits` | crates/asp-bench/src/main.rs:1033-1043 | The rounded serialization time covers the datagram's bits at the configured rate. |
| `Shaper.WireTimeIsLeast` | crates/asp-bench/src/main.rs:1033-1043 | It is the least time of at least a nanosecond that does, for every rate and datagram size. |
| `Shaper.WireTimeOfNothing` | crates/asp-bench/src/main.rs:1033-1036 | It is zero exactly for an empty datagram or without a rate limit. |
| `Shaper.JitterIsEven` | crates/asp-bench/src/main.rs:1010-1015 | Each of the `2j + 1` jitter values is hit by exactly one draw in that many. |
| `Shaper.LossIsProportional` | crates/asp-bench/src/main.rs:988-990 | Of a hundred consecutive draws exactly the configured percentage is lost. |
| `Shaper.ShapedDue` | crates/asp-bench/src/main.rs:1001-1031 | The due time is the later of the delayed arrival and the direction's next free time, which moves to the end of serialization; `Drive` carries the exact times to every run. |
| `Shaper.RateIsNeverExceeded` | crates/asp-bench/src/main.rs:1001-1043 | For datagrams spaced by their serialization times, the bits between any two due times are at most rate times elapsed time; `Drive` carries this to every run. |
| `Shaper.NextDueIsOldest` | crates/asp-bench/src/main.rs:905-918 | The packet the minimum picks is the oldest of its direction still pending. |
| `Shaper.SwapRemoveMembers` | crates/asp-bench/src/main.rs:918 | Swap-removal reorders the vector but takes out exactly one packet. |
| `Shaper.FindDue` | crates/asp-bench/src/main.rs:907-917 | The search returns the minimal due packet, or nothing when none is due. |
| `Shaper.AcceptKeeps` | crates/asp-bench/src/main.rs:964-985 | Accepting a datagram keeps conservation, the byte counter, the spacing of due times and arrival order in both directions. |
| `Shaper.ForwardKeeps` | crates/asp-bench/src/main.rs:905-930 | So does forwarding the next due one. |
| `Shaper.Drive` | crates/asp-bench/src/main.rs:905-986 | In every run of arrivals and flushes: the packets of a direction are arrivals of that direction in the order of their arrival, each due exactly when its delay is over and its predecessor's bits are through, and what has left is a beginning of them; their bits keep to the rate between any two due times; what was accepted has left or is waiting; early and lost arrivals are counted exactly, nothing is dropped unless more arrived than fits, and after a flush nothing due is waiting. |
| `Shaper.UdpProxy.QueueDatagram` | crates/asp-bench/src/main.rs:932-986 | A datagram is queued exactly when it has a destination, is not lost and fits; otherwise the queue is unchanged. |
| `Shaper.UdpProxy.FlushOne` | crates/asp-bench/src/main.rs:907-928 | Sends one due packet and keeps the queue invariant, or shows that none is due. |
| `Shaper.UdpProxy.FlushDue` | crates/asp-bench/src/main.rs:905-930 | Terminates for any clock, sends each packet only when due and leaves none that is due. |
| `WorkspaceCache.AgentWorkspaceCache.Clear` | crates/asp-client/src/main.rs:2586-2589 | Empties the cache and resets the counter. |
| `WorkspaceCache.AgentWorkspaceCache.Evict` | crates/asp-client/src/main.rs:2600-2609 | Terminates with room for the new entry or an empty cache, keeps the drift, and evicts nothing when there was room. |
| `WorkspaceCache.AgentWorkspaceCache.Insert` | crates/asp-client/src/main.rs:2591-2612 | At most 16 entries, true sum at most 32 MiB and at most the counter; a fitting result is stored, others stay when the counter has room and none when the drift leaves none; an oversized one removes its entry and the counter drifts by that entry's bytes. |
| `WorkspaceCache.Play` | crates/asp-client/src/main.rs:2591-2612 | Every sequence of insertions and clears has a run whose steps are insertions and clears and whose states all keep the bounds. |
| `WorkspaceCache.DriftIsLostBytes` | crates/asp-client/src/main.rs:2593-2597 | In every such run the counter is above the true sum by exactly the bytes of the entries that oversized results replaced since the last clear. |
| `WorkspaceCache.DriftGrows` | crates/asp-client/src/main.rs:2593-2597 | In every run that stores a result and replaces it by an oversized one, any number of times, the cache ends empty with its counter at the sum of all rounds. |
| `WorkspaceCache.DriftedCacheForgets` | crates/asp-client/src/main.rs:2598-2612 | In every run, after two such rounds of 32 MiB, a first small result is stored and storing a second one evicts it. |
| `WorkspaceQuery.ExpansionIsComplete` | crates/asp-client/src/main.rs:4645-4742 | For any validators a caller supplies, expanding the server's shortened reply gives its full result. |
| `WorkspaceQuery.RepliesAreShort` | crates/asp-server/src/main.rs:18412-18511 | A result is acknowledged by digest alone if and only if the adapter holds one with that digest, and the tree is left out when the adapter holds the current one. |
| `WorkspaceQuery.UnfilteredValidatorsLoseResults` | crates/asp-client/src/main.rs:3297-3311 | Without the two filters a result would be lost or emitted without its tree. |
| `WorkspaceQuery.QueryWorkspace` | crates/asp-client/src/main.rs:4628-4787 | One query emits the full result the server computed and keeps every cached entry a result it once computed; a failed query leaves the cache and the versions alone. |
| `WorkspaceQuery.AskAgain` | crates/asp-client/src/main.rs:4628-4787 | Asked again right away, an unchanged result that fits the cache is shown in full and not sent again. |
| `WorkspaceQuery.Session` | crates/asp-client/src/main.rs:3286-3335 | In every session of queries, evictions, invalidations and server changes, every query shows the complete result and the acknowledgement error is never reached. |
| `AgentInput.ReadBoundedLine` | crates/asp-client/src/main.rs:2381-2417 | However the buffer is filled, one call consumes exactly one line, flags it oversized if and only if it is longer than the maximum with its newline, and never holds more than the maximum. |
| `AgentInput.ReadRequests` | crates/asp-client/src/main.rs:3068-3081 | For every way of cutting the input, the requests are its lines, each once and in order, oversized ones replaced by an error. |

## Left out

- QUIC, TLS, sockets, DNS, timers, backoff and signals: a connection is a sequence of responses that may end anywhere.
- zlib, SHA-256, Postcard and JSON: parameters, assumed inverse to their decoders; a digest names one content, and a Postcard message that starts with a session id starts with its length, 16.
- The byte histogram that decides whether compression is worth trying: a parameter of the encoders, whose theorems hold for either decision.
- Error classification by message text: whether an error is retryable or a credential error is part of each attempt.
- The terminal emulator: chunks and resizes come with the terminal they lead to; a terminal is history rows, screen rows and a clamped offset, and `PtyResize` uses of its `set_size` only that a narrower row of single-column text is cut off.
- The server's journal storage, idempotency and in-memory digest index: the index is taken to acknowledge a digest only when it is the current result's.
- The one-shot resume stream and the detach on Ctrl-C of a subscription: the same order of print, acknowledge and save as the modelled loop.
- The lookup of a cached file by path and digest before a patch is chosen: the model starts from the base it found.
- The digest syntax check on a workspace reply, the tail lookup before a log read, and the started and summary records of a command.
- The encoders and decoders of frames and datagrams are functions on byte sequences, not appends to a shared buffer.
- The subscription, session and download loops are state machines on values, because a crash can fall between any two of their writes; in-place update of the saved-session map is not represented.
- The saved session file is assumed to have one subscriber per consumer name while a subscription runs; other savers are modelled in `SessionProtocol`.
- Deleting a download's sidecar files is assumed to succeed, and explicit `--new` and `--resume` do not occur in the session protocol.
- The retry limits of a download and of opening a session, and the size limit of the saved session file: running into one is a failure of the process, at any point.
- A failing UDP send ends the shaper and is not modelled.
- Shaper.Drive: states arrival order for at most 2^64 - 1 accepted packets, because the order counter wraps there and ties are broken by it.
- Shaper.JitterIsEven: speaks of jitter bounds below 2^63 - 1 milliseconds, where the span does not saturate.
- WorkspaceCache.DriftIsLostBytes: speaks of runs in which the 64-bit counter does not saturate.
- Subscription.PrintedExactlyOnce: speaks of one process; across a crash events may be printed again, which `SubscriptionProgress.CrashRepeatsOnlyUnsaved` covers.
- SessionStore.StoredCursorIsMaximum: speaks of saves for one session; a save for another session replaces the entry.
- Command-line resolution, certificates, permissions, readiness checks, scripts and benchmarks' reporting would add only one-branch claims.
