# RepoAgent, verified models

Models, in Dafny, of the parts of RepoAgent that are easiest to get wrong, and proofs of what they promise.
Every module follows one component of the program.

- **Turns on disk** (`TurnLog`, `TurnRecovery`, `RunStore`): the append-only event log of a turn with torn-tail
  repair and validation, the snapshot beside it, and recovery at start-up, with a crash at any character of an append.
- **Protocols**, as state machines over every interleaving: the supervisor of one guest execution
  (`GuestSupervisor`), durable ownership of containers (`SandboxOwnership`), channel receipts and delivery
  (`ChannelReceipts`), sessions shared by several stores (`SessionStore`), and scheduled jobs (`Cron`).
- **Streams** that must not depend on how text is cut into chunks: redaction of secrets (`SecretStream`) and the
  visible part of a model's answer (`FinalStream`).
- **Fitting into token budgets**, for arbitrary token counters: messages (`Messages`, `ContextOverflow`), rebuilt
  conversations (`Conversation`, `ConversationContents`), transcripts (`Clipping`, `Compaction`) and whole prompts (`ContextBudget`).
- **The agent loop and its tools**: counters and exits of a turn (`AgentLoop`), batches of tool calls
  (`ToolBatches`), and text patches (`TextPatch`).

`Wrappers`, `Strings`, `Sequences` and `Ordering` are shared helpers.

Code that changes things step by step is a class or a method with a loop, proved against a specification function or
relation; what the program promises is then proved of the specification. A protocol is a set of steps with an
inductive invariant, and its theorems are about every run.

## Where the code does less than one might expect

Each of these is stated in the model with the exact condition, or with a run that shows it.

- A crash between the two events that seed a missing history turns a completed turn into a failed one
  (`TurnRecovery.SeedingCrash`).
- Recovery compares the ids in a log with the directory name only through the snapshot, so a second pass can fail
  where the first succeeded (`TurnRecovery.SecondPassNeedsMatchingId`).
- A guest run starts its child before it enters a `try`, and its clean-up kills the group last. An exception that comes
  right behind the launch, or a tombstone that cannot be written, leaves a group that outlives the run and every later
  cancel (`GuestSupervisor.CancelIsFinalIff`, `GuestSupervisor.FinishedRunLeavesNothingIff`).
- A pid write that fails after some digits have landed, and a run that is cut short between the pid write and the
  removal of the file, leave a pid file behind, and the next cancel kills whoever has that id
  (`GuestSupervisor.NoStrayKillIff`). A write that leaves an empty file makes every later cancel fail
  (`GuestSupervisor.EmptyFileFailsCancel`).
- A submission that writes "running" late reopens a delivered receipt, and the reply is sent again
  (`ChannelReceipts.LateRunningReopens`, `ChannelReceipts.DeliveredIsSentTwice`).
- Completing a job with an empty owner succeeds on an unclaimed job (`Cron.EmptyOwnerCompletesUnclaimed`).
- Fallback patch windows that share a single empty line are not rejected as overlapping
  (`TextPatch.SharedBlankLineIsAccepted`).
- Calls are recorded after each batch, so a parallel batch executes a third identical read that serial execution
  turns away (`ToolBatches.PlanAgrees`, `ToolBatches.ThirdReadDiffers`).
- The host notes rejected calls of a parallel batch, but not those of serial execution (`ToolBatches.PlanAgrees`).
- An interval below half a tick of the clock's floating point keeps the rescheduling loop from ending
  (`Cron.RoundedLoopEndsIff`).
- New text with a CR before a CRLF keeps that CR, which the next normalization takes for half a CRLF
  (`TextPatch.ReplacementNormalizesBack`).
- Saving a session that uses a reserved key does not read back unchanged (`SessionStore.SavedIsReadBack`).

## Model

| member | source | states |
|---|---|---|
| SecretStream.TableIsOrdered | repoagent/stream_redaction.py:8-10 | the table of secrets is the set of non-empty configured values, without repetitions, longest first |
| SecretStream.ScanShowsTheCut | repoagent/stream_redaction.py:20-44 | the longest-match scan shows exactly the pieces of the one way of cutting a text so that no secret starts at a shown character and every hidden piece is the longest secret that starts there |
| SecretStream.CutExists | repoagent/stream_redaction.py:20-44 | for every text such a cut exists |
| SecretStream.DrainSettles | repoagent/stream_redaction.py:20-44 | what one drain releases, followed by the scan of what it keeps, is the scan of the whole, for every continuation |
| SecretStream.ReleasedIsFinal | repoagent/stream_redaction.py:14-44 | before the end, the output so far is a prefix of the scan of every possible continuation |
| SecretStream.RetainedIsShort | repoagent/stream_redaction.py:20-44 | the retained text is always a proper prefix of some secret, so it is shorter than the longest |
| SecretStream.ChunkingIsInvisible | repoagent/stream_redaction.py:14-57 | for every set of secrets and every chunking, the outputs of `feed` followed by `finish(complete=True)` are one scan of the whole text |
| SecretStream.SecretTextStream.Feed | repoagent/stream_redaction.py:14-18 | a feed releases the drain of the pending text and the new text, nothing once closed, and keeps the undecided rest |
| SecretStream.SecretTextStream.DrainPending | repoagent/stream_redaction.py:20-44 | the index loop computes the drain of the pending text and leaves its rest pending |
| SecretStream.SecretTextStream.Finish | repoagent/stream_redaction.py:49-57 | a complete finish releases the scan of the pending text, an incomplete one drops it; either closes the stream |
| SecretStream.FilterChunks | repoagent/stream_redaction.py:6-57 | feeding any chunks through one stream and finishing it returns the scan of their concatenation |
| FinalStream.FindAcrossChunks | repoagent/agent_loop.py:112-126 | searching the kept suffix together with new text finds the first marker of everything received |
| FinalStream.KeptAcrossChunks | repoagent/agent_loop.py:140-146 | the kept suffix of everything is the kept suffix of the old kept suffix and the new text |
| FinalStream.OverlapIsLongest | repoagent/agent_loop.py:140-146 | the suffix held back is the longest one that is a proper prefix of the marker |
| FinalStream.VisibleMeans | repoagent/agent_loop.py:112-134 | what is shown behind the first `<final>`: the text up to the next `</final>`, or all of it but the longest suffix with which that may begin |
| FinalStream.ChunkingIsInvisible | repoagent/agent_loop.py:106-134 | for every chunking the text shown is the text between the first `<final>` and the next `</final>`, or while that end is missing everything after `<final>` but the held-back suffix |
| FinalStream.ShownIsFinal | repoagent/agent_loop.py:112-134 | more text never takes back what was shown |
| FinalStream.HeldBackMayBeMarker | repoagent/agent_loop.py:133-134 | nothing is held back without need: some continuation turns the held-back suffix into the end marker |
| FinalStream.FinalTextStream.Feed | repoagent/agent_loop.py:112-134 | one feed moves the buffer and the state, and emits text, as the specification says |
| FinalStream.SuffixPrefix | repoagent/agent_loop.py:140-146 | the downward loop finds the longest overlap |
| FinalStream.ShowResponse | repoagent/agent_loop.py:106-138 | any chunks of a response deliver its visible text to the sink |
| TextPatch.MatchIsJoined | repoagent/text_patch.py:47-49 | an exact match is the requested lines with LF or CRLF between them |
| TextPatch.JoinedIsMatch | repoagent/text_patch.py:47-49 | wherever the text holds the requested lines so joined, the search matches |
| TextPatch.FindAllMissesNone | repoagent/text_patch.py:49 | no match starts outside the ones returned |
| TextPatch.WindowListed | repoagent/text_patch.py:14-38 | exactly the windows of lines that agree after stripping are listed |
| TextPatch.WhitespaceSpans | repoagent/text_patch.py:14-38 | the fallback loop collects the spans of exactly those windows, in order |
| TextPatch.SharedLinesOverlap | repoagent/text_patch.py:26-38 | two fallback windows have overlapping spans if and only if they share more than one line, or one line that is not empty or is taken with its terminator |
| TextPatch.SharedBlankLineIsAccepted | repoagent/text_patch.py:14-73 | replacing all fallback matches of one request in one text succeeds with two replacements although both matches take in the same empty line |
| TextPatch.PrepareTextPatch | repoagent/text_patch.py:41-73 | the patch, its errors and its match mode are those of the specification, for every input |
| TextPatch.Splice | repoagent/text_patch.py:60-72 | the loop over the spans writes the text with every span replaced |
| TextPatch.OnlyMatchesChange | repoagent/text_patch.py:58-73 | on success the input is untouched pieces around k disjoint ordered matches, the output the same pieces around replacements; k is 1 unless all were asked for |
| TextPatch.ExactMatchesAreRight | repoagent/text_patch.py:47-50 | in exact mode the matches are disjoint and each is the requested lines joined by LF or CRLF |
| TextPatch.ExactMissesNone | repoagent/text_patch.py:47-50 | in exact mode every occurrence starts inside a match |
| TextPatch.FallbackMatchesAreRight | repoagent/text_patch.py:51-53 | the fallback serves only when nothing matches exactly; each of its spans covers whole lines that equal the requested ones after stripping |
| TextPatch.FallbackIs | repoagent/text_patch.py:14-38 | a span is found by the fallback if and only if it covers a run of lines that equal the requested ones after stripping, and some requested line is not blank |
| TextPatch.RequestMeans | repoagent/text_patch.py:14-20 | the lines compared are the lines of the request, stripped, and a request that ends in a line feed demands a terminated last line |
| TextPatch.InsertedBreaks | repoagent/text_patch.py:62-69 | the line feed that decides is the first in the match, else the first behind its start, else the first of the text: behind a CR every inserted break is CRLF, otherwise the normalized request is inserted as it is |
| TextPatch.LfTextStaysLf | repoagent/text_patch.py:62-69 | in a text without CRLF exactly the normalized request is inserted |
| TextPatch.CrLfTextStaysCrLf | repoagent/text_patch.py:62-69 | in a text whose breaks are all CRLF every inserted break is CRLF, if no match starts between the CR and the LF of one |
| TextPatch.ReplacementNormalizesBack | repoagent/text_patch.py:60-70 | an inserted text is the requested one up to line terminators if and only if the line ending at the match is CRLF or the normalized request holds no CRLF any more |
| TurnLog.ValidateHistory | repoagent/run_store.py:356-361 | validating record by record reports the first objection |
| TurnLog.AcceptedIsWellFormed | repoagent/run_store.py:332-361 | a log is accepted if and only if it is numbered from 1, begins with the acceptance, keeps one correlation identity and one format version, repeats no event id, and has no terminal event but possibly the last |
| TurnLog.ReadingGivesWritten | repoagent/atomic_io.py:95-124 | reading the written lines gives the records that were written |
| TurnLog.TornTailIsCut | repoagent/atomic_io.py:99-109 | what the repair keeps of whole lines with a torn one behind them is exactly the whole lines |
| TurnLog.AppendWrites | repoagent/atomic_io.py:127-140 | an accepted event is appended as one line behind the repaired log; an objection leaves the records as they were |
| TurnLog.CrashCutsOneRecord | repoagent/atomic_io.py:127-140 | a crash at any character of the appended line keeps every earlier record, and the new one exactly if its line was completed |
| TurnRecovery.RecoveryClosesTheTurn | repoagent/run_store.py:158-201 | for every surviving history, any torn tail and any stale or missing snapshot, recovery leaves an accepted log: the surviving records plus, if none was terminal, one `turn.failed` whose payload names the turn, session and request of the event, and by whose error the delivery worker recognises a turn cut short; exactly one event is terminal, the last, and the snapshot has the ids of the log, the state and outcome of its last event, and its request |
| TurnRecovery.RecoverFromSnapshot | repoagent/run_store.py:402-444 | a turn known only from its snapshot is recovered from it: the log begins with an acceptance of its request, a finished turn keeps its state and outcome, an unfinished one fails as one cut short |
| TurnRecovery.RecoveryIsIdempotent | repoagent/run_store.py:158-201 | after a successful recovery a second one recovers nothing, leaves the log as it is and writes the identical snapshot |
| TurnRecovery.SecondPassNeedsMatchingId | repoagent/run_store.py:385-400 | the second pass succeeds if and only if the turn id in the log is the name of the directory |
| TurnRecovery.CommitMeans | repoagent/run_store.py:127-148 | a commit appends its event behind the surviving records or reports the objection; the snapshot changes only behind an appended event |
| TurnRecovery.AnonymousSnapshotIsRefused | repoagent/run_store.py:402-409 | a snapshot that lacks one of its three ids seeds nothing |
| TurnRecovery.ForeignSnapshotIsRefused | repoagent/run_store.py:385-400 | recovery refuses a snapshot if and only if its turn is not the one the directory is named after, or one of its three ids is not that of the first record, and then changes nothing but a torn line |
| TurnRecovery.SeedingCrash | repoagent/run_store.py:402-444 | after a crash inside the seeding, at any character, a finished turn keeps its state if and only if the first seeded line was lost, the second completed, or the turn had failed anyway |
| TurnRecovery.HistoryOverRuns | repoagent/run_store.py:127-201 | over every run of commits, crashes and recoveries the log is accepted at every moment, only grows, and not at all after its terminal event |
| RunStore.TurnDirectory.ReadJsonl | repoagent/atomic_io.py:95-124 | truncates a torn tail when repairing, and returns the parsed records, as specified |
| RunStore.TurnDirectory.AppendJsonl | repoagent/atomic_io.py:127-140 | repairs, validates and appends one line, as specified |
| RunStore.TurnDirectory.CommitTurnEvent | repoagent/run_store.py:127-148 | the event is appended first, the snapshot replaced after it and only if the append succeeded |
| RunStore.TurnDirectory.LoadTurnEvents | repoagent/run_store.py:150-156 | returns only a well-formed log, changes nothing, refuses a torn tail |
| RunStore.TurnDirectory.SeedMissingHistory | repoagent/run_store.py:402-444 | appends the seeded events one by one, as specified |
| RunStore.TurnDirectory.RecoverTurn | repoagent/run_store.py:160-200 | the steps on one run directory have the outcome that the recovery function gives |
| RunStore.RecoverIncompleteTurns | repoagent/run_store.py:158-201 | directories are recovered one by one and the failed turns are named in order; the first corrupt directory ends the pass and those after it are untouched |
| RunStore.ParseLines | repoagent/atomic_io.py:110-124 | the loop over lines parses the records and skips blank lines |
| RunStore.CompletePart | repoagent/atomic_io.py:99-103 | finds everything up to the last line feed |
| GuestSupervisor.InvIsInductive | repoagent/sandbox_exec_guest.py:16-60 | every step of the run, of any cancel and of the children, and every exception at any point between two effects, keeps the invariant over lock, pid file, tombstone and process group |
| GuestSupervisor.CancelIsFinal | repoagent/sandbox_exec_guest.py:31-60 | in every interleaving whose exceptions keep track of the group, once a cancel has finished no process of the group is alive and none is ever launched again |
| GuestSupervisor.AliveAfterCancelIsLost | repoagent/sandbox_exec_guest.py:31-60 | whatever raises, nothing can be launched after a finished cancel, and the group is alive then if and only if the run has ended with its group alive and no pid file, or only part of the pid in it |
| GuestSupervisor.CancelIsFinalIff | repoagent/sandbox_exec_guest.py:40-57 | for every set of exceptions that may come: no group outlives a finished cancel if and only if the set has none behind the launch before its handler, none between the removal of the pid file and the kill of the clean-up, and none that cuts short the error path of a pid write that left no file or only some of the digits |
| GuestSupervisor.FinishedRunLeavesNothing | repoagent/sandbox_exec_guest.py:40-60 | in every interleaving in which no exception ends the run between launch and kill, a finished run leaves nothing of its group |
| GuestSupervisor.FinishedRunLeavesNothingIff | repoagent/sandbox_exec_guest.py:40-60 | for every set of exceptions this is exact: if one of them can end the run between launch and kill, a run exists that leaves its group alive |
| GuestSupervisor.KillsTargetUnreaped | repoagent/sandbox_exec_guest.py:33-58 | every kill of the run, and every kill of a cancel before the run has finished, targets an unreaped leader; a stray kill needs digits of the pid that outlived the run |
| GuestSupervisor.NoStrayKill | repoagent/sandbox_exec_guest.py:33-58 | unless an exception leaves digits of the pid in the file, no kill ever goes to a reused id |
| GuestSupervisor.NoStrayKillIff | repoagent/sandbox_exec_guest.py:41-55 | for every set of exceptions: no kill goes astray if and only if the set has no pid write that raises after some or all digits, and none that ends the run between the pid write and the removal of the file |
| GuestSupervisor.CancelAfterRun | repoagent/sandbox_exec_guest.py:33-37 | a cancel after the run finishes unless the pid file is empty, and then fails without a kill; the group survives a finishing one if and only if it was lost, and its kill goes astray if and only if the file holds part of the pid, or the whole pid with nobody left to hold it |
| GuestSupervisor.EmptyFileFailsCancel | repoagent/sandbox_exec_guest.py:35-37 | in no interleaving does a cancel finish that meets an empty pid file after the run |
| SandboxOwnership.InvIsInductive | repoagent/sandbox_ownership.py:45-162 | every step of sessions, reconciliations, clean-ups, late daemon executions and crashes keeps the invariant that no copy of a record claims more than happened |
| SandboxOwnership.ClosedIsForever | repoagent/sandbox_ownership.py:81-107 | a record marked closed stays closed, and its container is gone and never appears again |
| SandboxOwnership.ClosedWasCreated | repoagent/sandbox_ownership.py:99-107 | nothing is closed whose container did not exist at an earlier moment of the run |
| SandboxOwnership.UsableIsSafe | repoagent/sandbox_session.py:112-172 | a usable session holds its lease, its container exists and its record says created; no reconciliation of its token can begin |
| SandboxOwnership.UsableStaysUsable | repoagent/sandbox_ownership.py:128-162 | as long as its process does nothing, no interleaving of the others takes the lease or removes the container of a usable session |
| SandboxOwnership.NoOrphanIsForgotten | repoagent/sandbox_ownership.py:45-69 | a container that exists, or whose create request may still land, has a record that is not closed |
| SandboxOwnership.OrphanCanBeRemoved | repoagent/sandbox_ownership.py:128-162 | once its lease is free any fresh process can remove such a container and close its record |
| ChannelReceipts.ReceiptTable.Reserve | repoagent/channel_receipts.py:38-85 | the first message of an identity reserves its turn id; a repeated one gets that id, a conflicting one is refused and changes nothing |
| ChannelReceipts.ReceiptTable.UpdateStatus | repoagent/channel_receipts.py:97-114 | updates the row of the identity and no other |
| ChannelReceipts.ReceiptTable.RetryDelivery | repoagent/channel_receipts.py:130-136 | requeues the one receipt of the turn that is under review and has content, and reports whether there was one |
| ChannelReceipts.InvIsInductive | repoagent/channel_receipts.py:152-230 | every step of submissions, turns, the delivery worker, restarts and retries keeps the invariant |
| ChannelReceipts.AttemptsBoundSends | repoagent/channel_receipts.py:205-230 | over every run the sends since the last manual retry are at most the attempts on record, and those at most the limit |
| ChannelReceipts.NeverResubmitted | repoagent/channel_receipts.py:152-164 | once the log has an event or the receipt has left "reserved", no submission reaches the host again, and a turn the host has forgotten is not scheduled again |
| ChannelReceipts.PublishedIsFinal | repoagent/channel_receipts.py:178-230 | a published reply is that of the turn's one terminal event and never changes |
| ChannelReceipts.CutShortIsNeverSent | repoagent/channel_receipts.py:186-192 | a turn that a restart cut short is never answered, not even after a manual retry |
| ChannelReceipts.RecoveredIsNeverSent | repoagent/run_store.py:466-486 | nor is a turn that startup recovery ended, from then on |
| ChannelReceipts.NothingIsStuck | repoagent/channel_receipts.py:152-230 | in every reachable state submissions can finish, the worker can take its next step, sending while attempts are left and giving up after them, and a reply under review can be requeued |
| ChannelReceipts.ExamineMeans | repoagent/channel_receipts.py:165-203 | an undecided receipt goes under review when its log cannot be read, when its last terminal event says a restart cut it short, and at a startup that finds traces of a turn without an end; any other end makes its answer due, and without an end it waits |
| ChannelReceipts.ReplyAnswers | repoagent/channel_receipts.py:188-191 | the answer is the final one of the outcome, or where it is empty a line with the turn and its state |
| ChannelReceipts.SubmitMeans | repoagent/channel_receipts.py:152-164 | a submission reaches the host if and only if it is the first of its identity, or repeats the same work while the receipt is reserved and the turn has no event |
| ChannelReceipts.DeliveredIsFinal | repoagent/channel_receipts.py:226-230 | a delivered receipt stays delivered when no submission is still in flight |
| ChannelReceipts.LateRunningReopens | repoagent/channel_receipts.py:159-164 | a submission still in flight writes "running" over "delivered", and the next pass makes the receipt due again |
| ChannelReceipts.DeliveredIsSentTwice | repoagent/channel_receipts.py:152-230 | this happens: a run from the beginning delivers a reply and then, with two attempts allowed, sends it again |
| ChannelReceipts.DueIsSentAgain | repoagent/channel_receipts.py:205-221 | and while attempts are left it is sent again, with the same reply |
| SessionStore.SessionStore.Save | repoagent/session_store.py:40-68 | saves with the next revision or fails with the error of the specification, changing nothing on failure |
| SessionStore.SessionStore.Load | repoagent/session_store.py:70-76 | returns the payload without the reserved keys and remembers its revision |
| SessionStore.SessionStore.Delete | repoagent/session_store.py:99-117 | writes the tombstone before removing the file, so a crash in between leaves both |
| SessionStore.SessionStore.Rewrite | repoagent/session_store.py:119-138 | commits the transformed payload at the next revision if the expected one is current and the identity is unchanged |
| SessionStore.SaveIsAllowedIff | repoagent/session_store.py:40-58 | a save writes this revision if and only if there is no file and the store remembers no other revision than 0, or the file holds the session at the revision before, which the store remembers |
| SessionStore.DeleteIsAllowedIff | repoagent/session_store.py:99-105 | a deletion is allowed if and only if a living file holds the session at the expected revision; it is stale if and only if the file holds another one |
| SessionStore.RewriteIsAllowedIff | repoagent/session_store.py:118-130 | a rewrite is allowed if and only if the file holds the session at the expected revision and the new payload has the same id and workspace |
| SessionStore.InspectedMeans | repoagent/session_store.py:78-85 | a read succeeds if and only if the name is well formed, there is no tombstone, and the file is an object with the id, a known version and a revision that is not negative; the errors by their causes |
| SessionStore.DeletionLeavesTombstone | repoagent/session_store.py:106-117 | an allowed deletion leaves the tombstone in every run, also one cut short by a crash |
| SessionStore.WritesFormChain | repoagent/session_store.py:40-68 | over every run of any number of stores the revision on disk grows by exactly one per successful write, and the file changes at no other time |
| SessionStore.SaveSucceedsIffUntouched | repoagent/session_store.py:47-58 | between a store's load or write and its next save anything may happen elsewhere; the save succeeds if and only if nobody wrote or deleted the session |
| SessionStore.TouchingSyncs | repoagent/session_store.py:66-76 | after a load or a recorded write the store is in step with the disk |
| SessionStore.DeletionIsFinal | repoagent/session_store.py:24-38 | once the tombstone exists no step of any store changes or recreates the session and every operation on it fails, also when a crash left the file |
| SessionStore.SavedIsReadBack | repoagent/session_store.py:59-76 | any store reads back what was saved, exactly if and only if the session uses neither reserved key |
| Cron.CronService.Add | repoagent/cron.py:146-172 | returns the enabled job for the same work, or appends a new one: enabled, unclaimed, never run, due at the given time or one interval from now |
| Cron.CronService.ClaimDue | repoagent/cron.py:175-202 | claims the first due and unclaimed jobs, earliest first, up to the limit, and changes nothing else |
| Cron.GrantDue | repoagent/cron.py:183-198 | the claimed positions are exactly the first ones in order of time and id, and no two enabled jobs become duplicates |
| Cron.ClaimMeans | repoagent/cron.py:182-198 | claimed jobs are enabled, due and unclaimed or claimed up to a time that has come; they come before every such job left out by time and then id; nothing but their owner and expiry changes, and what is handed out is what is stored |
| Cron.CronService.Complete | repoagent/cron.py:204-226 | completes the job of the claim holder, or fails for an unknown job or another owner |
| Cron.FinishedMeans | repoagent/cron.py:204-226 | a completed job has one run more, its outcome and no claim; an "at" job is disabled, an "every" job is due after now by the fewest whole intervals, and at least one |
| Cron.Reschedule | repoagent/cron.py:219-222 | the loop ends, and shifts the time by the least positive whole number of intervals that brings it after now |
| Cron.LeastShiftIsUnique | repoagent/cron.py:219-222 | there is only one such time |
| Cron.RoundedLoopEndsIff | repoagent/cron.py:219-222 | when times are rounded to ticks the loop ends if and only if its first addition gets past now or the interval rounds to at least one tick |
| Cron.RunsAreGranted | repoagent/cron.py:146-226 | over every run with named owners a job is completed at most as often as it was handed out, an "at" job at most once, and no two enabled jobs are for the same work |
| Cron.ClaimExcludes | repoagent/cron.py:188-197 | until it is completed or expires, a claim keeps the job from everybody else and only its owner can complete it |
| Cron.EmptyOwnerCompletesUnclaimed | repoagent/cron.py:209-212 | an empty owner, and no other, completes a job that nobody claimed, one time more than it was handed out |
| Ordering.Sort | repoagent/cron.py:184 | sorts positions by a key, keeping every one |
| ContextOverflow.EmergencyShrink | repoagent/context_overflow.py:14-34 | elides exactly the non-empty tool results with at least three later ones, and reports how many it elided |
| ContextOverflow.EmergencyIsIdempotent | repoagent/context_overflow.py:14-34 | shrinking again changes nothing; every call, id and fixed message is kept, and so is pairing |
| ContextOverflow.ElideOldOutputs | repoagent/context_overflow.py:186-211 | results of the last message that calls anything are never touched, whatever the counter; any other result whose elision saves is elided or the list fits; larger savings go first, and none is elided beyond need |
| ContextOverflow.ThinkingOnlyGo | repoagent/context_overflow.py:64-73 | exactly the assistant messages go that think, and neither say nor call anything |
| ContextOverflow.ExchangeGoes | repoagent/context_overflow.py:220-238 | dropping an exchange removes the calling message and the results of its calls and nothing else; it is complete when the results are as many as its different ids |
| ContextOverflow.DropOldExchanges | repoagent/context_overflow.py:214-239 | each round drops the first of at least two complete exchanges; it ends within the budget or with at most one such exchange |
| ContextOverflow.DropPaired | repoagent/context_overflow.py:220-237 | dropping an exchange keeps every remaining result behind its call |
| ContextOverflow.RoundsKeepLatest | repoagent/context_overflow.py:219-239 | when no id is used twice, no number of rounds touches the latest complete exchange |
| ContextOverflow.ClipToBudget | repoagent/context_overflow.py:105-183 | the bisection fits if and only if the shortest clip does, and ends at a limit that fits while the next does not, for any counter |
| ContextOverflow.FitMessages | repoagent/context_overflow.py:54-183 | fitted exactly if the result is within the budget; otherwise the original is returned and even the shortest clip is too long; the reductions applied are the specified ones and the result is faithful to the input |
| ContextOverflow.ReducedMeans | repoagent/context_overflow.py:64-92 | the reductions come in their order: thinking-only messages, spare results, exchanges, and an exchange goes only while the list is too long |
| ContextOverflow.DropMeans | repoagent/context_overflow.py:219-239 | a round removes the first of at least two complete exchanges and nothing else, and rounds end within the budget or with at most one |
| ContextOverflow.ClipMeans | repoagent/context_overflow.py:105-134 | a cut at a limit leaves system and user messages and short texts alone, elides longer results and keeps the beginning of longer texts |
| ContextOverflow.ReducedIsFaithful | repoagent/context_overflow.py:74-92 | the three reductions lose no fixed message, no pairing and not the latest complete exchange |
| ContextOverflow.FaithfulKeeps | repoagent/context_overflow.py:105-134 | system and user messages survive unchanged and in order, and every surviving message has the calls, ids and thinking blocks it had |
| Messages.PairedMeansEarlierCall | repoagent/context_overflow.py:214-239 | pairing means that each result has an earlier message that makes its call |
| Conversation.UserTurnGroups | repoagent/conversation.py:121-134 | the turns are the history from its first user entry on, cut before each user entry |
| Conversation.MessagesFromGroup | repoagent/conversation.py:153-203 | the loop builds the messages of one turn, making up a call for a result that answers none |
| ConversationContents.TurnIsAccountedFor | repoagent/conversation.py:153-203 | the messages of a turn are, entry by entry and in order, what its entries say: each user entry and each assistant entry with content, a readable call, reasoning or thinking is one message with just that, each tool entry with an id has one result with its content between the markers of its tool, and a call is made up if and only if no earlier call of that id is open; nothing else is there |
| Conversation.RenderedIsPaired | repoagent/conversation.py:153-203 | every result so built answers a call of the nearest earlier message that is not a result, and no call is answered twice |
| Conversation.ResultFollowsCall | repoagent/conversation.py:153-203 | what that says message by message |
| Conversation.FitGroup | repoagent/conversation.py:206-241 | the newest turn is cut at a limit that fits and is tight, or not even the shortest cut fits |
| Conversation.SelectTurns | repoagent/conversation.py:86-105 | turns are taken from the newest back until one does not fit |
| Conversation.BuildHistory | repoagent/conversation.py:75-118 | the selected turns are a contiguous suffix of which only the newest may be cut, their separate counts are within the budget, included and dropped entries make up the source, and results follow their calls |
| ConversationContents.HistoryTells | repoagent/conversation.py:75-118 | every turn of a built history tells what its entries say, all of them whole but possibly the newest, whose longer contents are cut at one limit |
| Conversation.LeftOutMeans | repoagent/conversation.py:86-105 | a turn that was left out counts more than what was left of the budget, and the newest one even with every content elided |
| Conversation.TightMeans | repoagent/conversation.py:206-241 | a cut turn has nothing longer than its limit, or is too long at that limit or the next in some rendering |
| Conversation.EstimateIs | repoagent/tokenization.py:83-87 | the estimate is the least number of tokens that hold the bytes of the list |
| Conversation.EstimateOfConcat | repoagent/tokenization.py:83-87 | the estimate of two lists together is at most the sum of their estimates |
| Conversation.EstimateOfTurns | repoagent/conversation.py:107-118 | with the UTF-8 estimate the flattened list counts at most the sum of the separately counted turns, brackets and commas included |
| Conversation.BuildEstimatedHistory | repoagent/conversation.py:75-118 | with the UTF-8 estimate the whole history counts at most the budget as one list |
| Clipping.ClipText | repoagent/compaction.py:353-370 | the bisection loop computes the clip |
| Clipping.ClipFits | repoagent/context_manager.py:545-564 | a clipped text fits; it is the text when that fits, else a cut that one more character would break, else nothing |
| Compaction.Compact | repoagent/compaction.py:154-220 | one record per entry in index order, and the specified rendering |
| Compaction.CandidateFor | repoagent/compaction.py:226-278 | the pass with its table of seen reads gives each entry the operation that its own definition gives |
| Compaction.CandidateMeans | repoagent/compaction.py:157-278 | what each entry offers: the last ones of the window their text, an older repeated read nothing, a read with a known summary that summary, another older tool output its summary, an older message its first 60 tokens |
| Compaction.DecideMeans | repoagent/compaction.py:182-207 | an entry is packed as it is if the transcript then is within the budget, else with its lines clipped if some are left and it then is, else dropped |
| Compaction.TranscriptFits | repoagent/compaction.py:194-207 | the rendering is within the budget for any counter that counts nothing as nothing |
| Compaction.RenderingIsIncluded | repoagent/compaction.py:182-207 | when anything is included the rendering is the header followed by the included lines in source order |
| Compaction.NothingIsLost | repoagent/compaction.py:182-207 | included entries and dropped or collapsed ones make up the source |
| Compaction.ReadsCollapseToFirst | repoagent/compaction.py:237-256 | an entry collapses if and only if it is an older read of a file that was read before, and then to the first read of the file, which does not collapse |
| ContextBudget.ContextManager.Build | repoagent/context_manager.py:345-427 | the reduction ends; it succeeds only within the total budget, and gives up only when every section in the order is at its floor and the default floors have given way |
| ContextBudget.ContextManager.RelaxFloors | repoagent/context_manager.py:392-408 | exactly the default floors of reducible sections in the order, but not the prefix's, become 0 |
| ContextBudget.ReductionRespectsFloors | repoagent/context_manager.py:534-540 | over every number of rounds the floor of the prefix and the explicit floors stand, and no budget is lowered outside the order or below the floor in force |
| ContextBudget.LoweringShrinksExcess | repoagent/context_manager.py:362-388 | lowering a section shrinks the sum of what is above the floors |
| ContextBudget.RenderRelevantMemory | repoagent/context_manager.py:616-652 | the loop over shrinking shares computes the specified rendering |
| ContextBudget.SectionFits | repoagent/context_manager.py:566-614 | every section that may be cut is within its own budget, for any counter that counts nothing as nothing |
| ContextBudget.RequestIsWhole | repoagent/context_manager.py:706-714 | the current request ends the prompt, whatever the budgets: all of it but white space at the end of the message, and all of it if there is none |
| ContextBudget.LoweringMeans | repoagent/context_manager.py:362-388 | a round while the prompt is too long: the first section in the order with room above its floor shrinks by the overflow, but not below the floor |
| ContextBudget.RelaxingMeans | repoagent/context_manager.py:389-411 | a round in which no section has room: the floors give way, once, those of sections that may be cut and are neither the prefix nor explicit |
| ContextBudget.PromptJoinsSections | repoagent/context_manager.py:706-714 | the prompt is the stripped join, by blank lines, of the texts of all seven sections in their order, without the empty ones |
| ContextBudget.SectionArrives | repoagent/context_manager.py:706-714 | every section with a text is in the prompt; the checkpoint whole, and a section of one text whole when that fits its budget |
| ContextBudget.RelevantMeans | repoagent/context_manager.py:616-652 | the notes that are not blank are listed with the largest equal share, down from an equal part of the budget, at which the list fits, else the whole list is clipped |
| ContextBudget.BeginningMeans | repoagent/context_manager.py:345-352 | the floors and budgets that a build begins with |
| AgentLoop.Run | repoagent/agent_loop.py:620-627 | the loop with its counters ends as the specified turn does |
| AgentLoop.TurnIsBounded | repoagent/agent_loop.py:541-563 | over every run the tool steps and every recovery counter stay within their limits |
| AgentLoop.ExitMeans | repoagent/agent_loop.py:1431-1451 | how a turn ended says what the last response was, or which limit was reached: the calls, else the attempts with steps left, else the steps |
| AgentLoop.GoesOnIff | repoagent/agent_loop.py:905-1240 | an iteration goes on if and only if it executed tools, recorded a malformed output, recovered an empty response with a recovery of that kind left, or compressed one of the first two overflows |
| AgentLoop.ToolsMeans | repoagent/agent_loop.py:1170-1330 | as many calls count as there are steps left; two failures of one tool in a row are answered by a note, at most twice in a turn |
| AgentLoop.StreakMeans | repoagent/agent_loop.py:1225-1240 | the streak is the number of last results in a row that are failures of one tool |
| AgentLoop.GivesUpIffSpent | repoagent/empty_recovery.py:62-91 | recovery is given up if and only if it is off, there is an answer, or every kind that the response allows is spent |
| AgentLoop.IterationIsSpent | repoagent/agent_loop.py:1009-1075 | every iteration that goes on spends a tool step, a recovery or an overflow compression, or is a malformed output |
| AgentLoop.StopsMalformedOnlyAfterTwo | repoagent/agent_loop.py:1431-1451 | a turn that stops for too many malformed responses had at least two malformed outputs or overflow compressions |
| AgentLoop.TwoMayBeEnough | repoagent/agent_loop.py:556-563 | with the default limits and two steps, exactly two malformed outputs stop the turn |
| ToolBatches.PlanBatches | repoagent/tool_gateway.py:101-156 | the batches concatenate to the requests, each satisfies the constructor of a batch and the bound, and two neighbours could not have been one batch |
| ToolBatches.PlanIsDetermined | repoagent/tool_gateway.py:101-156 | there is only one such plan for a list of requests |
| ToolBatches.BatchMeans | repoagent/tool_gateway.py:101-156 | only reads that are safe to run at once share a batch, which then is parallel; mode, effects and reason of every batch |
| ToolBatches.ExecuteBatch | repoagent/tool_gateway.py:158-199 | a batch gives, for every completion order, the results and notes of its specification; an unsafe or oversized parallel batch is refused |
| ToolBatches.ExecutePlan | repoagent/agent_loop.py:1170-1250 | so does the loop over all batches, which records the calls of a batch when all of it is done |
| ToolBatches.PlanMeans | repoagent/tool_gateway.py:239-390 | request by request, over the workspace the one before left: turned away by a check, else as the third identical call in a row behind all earlier batches, else by the approval, else run; a parallel batch notes everything, any other what ran |
| ToolBatches.PlanAgrees | repoagent/tool_gateway.py:158-211 | a plan leaves the workspace that one-by-one execution leaves; it gives the same results if and only if the test for a repeated call answers every request the same at the beginning of its batch as after all earlier requests, and the same notes if and only if besides no request of a parallel batch is turned away |
| ToolBatches.TestsFromHistory | repoagent/runtime.py:1123-1146 | the condition follows from the requests and the history before the call, and is equivalent to it when no request is turned away before the test |
| ToolBatches.ThirdReadDiffers | repoagent/tool_gateway.py:359-370 | of three identical reads in one response a parallel batch executes the third, serial execution turns it away |

## Left out

- RunStore.RecoverIncompleteTurns: takes the run directories as given, in order; a directory with neither file is one whose recovery does nothing. Locks are atomic, the redactor and the snapshot's format version are not modelled.
- TurnLog.ReadingGivesWritten: the JSON encoding is any faithful encoding into one line that is not blank (`TurnLog.FaithfulCodecExists` gives one); line separators other than the line feed, and bytes that are not UTF-8, are not modelled.
- TextPatch.PrepareTextPatch: works on decoded text; the UTF-8 decoding of the file and its encoding back are not modelled.
- GuestSupervisor.CancelIsFinal: assumes one run per token, that the supervisor itself is not killed, that no child leaves the process group, and that only these runs and cancels change the files of the registry. No call is taken to succeed: an exception may come at every point of the run and of a cancel, the kills included. A kill that is sent takes effect at once and as a whole, as does every other effect but the pid write, and a group id stays taken while a member of the group lives or its leader is not reaped.
- SandboxOwnership.InvIsInductive: is about one daemon, one create request per token, and containers that nobody else removes; the error for a changed engine, invalid record files and timeouts appear only as clean-ups that fail. The adapter and its records are a state machine, not objects updated in place.
- ChannelReceipts.InvIsInductive: is about one receipt, since every update names one identity and turn ids are distinct, and about one live worker at a time, which the gateway lease provides; send times and error texts are left out. The worker and the submissions are a state machine over the rows of the table.
- SessionStore.DeletionIsFinal: symbolic links, file times, `latest` and concurrent reads in the middle of a locked section are not modelled; metadata given as numeric text counts as corrupt.
- Cron.Reschedule: uses exact reals; `Cron.RoundedLoopEndsIff` rounds to the nearest of equally spaced ticks, halves upwards, while the spacing of floating-point numbers doubles from one power of two to the next and halves go to the even one. Trace of update times and the reloading cache are left out.
- ContextOverflow.FitMessages: the counter is any function of the messages; JSON text and digests are not modelled. `emergency_shrink_history` applies the same rule to stored entries and is not repeated.
- Conversation.BuildHistory: arguments of calls are text that parsed or did not; nonces are drawn freely for each rendering. The bytes of one message's JSON are any function; list brackets and commas are exact.
- Compaction.Compact: digests, token counts of records and provenance fields are functions of what the records hold and are left out; lines end at line feeds only.
- ContextBudget.ContextManager.Build: section texts, selected notes and file summaries are given; feature switches, metadata and the reduction log are left out. Every section has a configured budget; the code leaves a prefix or memory without one uncut. The prompt is stripped at both ends, as the code does, so white space at the end of the request may go.
- AgentLoop.Run: the client, the parser, the tools and the history reduction answer freely; the native-context branch, checkpoints, memory, traces and the synthesis of a last answer are left out.
- ToolBatches.ExecutePlan: the checks, the approval and the tool depend on the request and the workspace alone, besides the test for a repeated call, and safe reads leave the workspace unchanged; cancellation and timeouts inside a batch are left out. Calls are compared by a key for the request and a key for what the history keeps of it.
- Provider clients, transports, Docker command lines and process capture: foreign calls, present only as free steps where a protocol needs them.
- Terminal and web interfaces, reports, pricing and full-text ranking: no property beyond their text.
- Capability tokens and the gateway lease: they would add only easy members.
- Liveness of retries, wall-clock accuracy and fairness of locks: not stated.
