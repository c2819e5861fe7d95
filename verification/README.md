# dkod: proofs about locks, watches, events, analytics and verification

dkod lets many agents edit one repository at once. Every agent session works in an overlay over
the commit it started from; a symbol is locked while a session has an unreleased write that changes
it, locks are given back at submit or merge, and events tell the blocked agents. This project models
the parts of dkod whose correctness depends on interleavings or on whole runs, and proves what they
keep. `dafny verify dfyconfig.toml` checks everything.

## Layout

| file | what it models |
|---|---|
| `SymbolDiff.dfy` | the symbol-level diff between the base and the written content |
| `ClaimTracker.dfy` | the lock table and its four operations |
| `WriteProtocol.dfy` | file write, submit and merge of any number of sessions as a step system |
| `Handlers.dfy` | the same handlers as methods of a server object |
| `StaleOverlay.dfy` | the staleness check, reads, writes and changeset updates under one clock |
| `WatchBuffer.dfy` | the bounded buffer of watch events and `dk_watch` on the server's maps |
| `WatchWakeup.dfy` | the blocking wait against stream tasks, drains and cleanups as a step system |
| `WatchStreams.dfy` | starting, restarting and cleaning up the stream task of a session |
| `EventBus.dfy`, `Watch.dfy` | publishing and subscribing; filters and the forwarding loop |
| `Sink.dfy` | the analytics batching loop |
| `ChangesetStatus.dfy` | changeset states and the guarded status updates |
| `Text.dfy`, `CommandScope.dfy` | rewriting a command to the packages a changeset touches |
| `Scheduler.dfy`, `Detection.dfy` | running a workflow; detecting one from the files of a repository |
| `TokenBudget.dfy` | the token estimate and truncation of a context response |
| `Reindex.dfy` | incremental re-indexing of symbols, call edges and the search index |
| `Common.dfy`, `Ordering.dfy` | shared vocabulary; the order of strings |

A concurrent piece is a total step function on a value state: an action that is not possible in a
state leaves it unchanged, so every sequence of actions is a run and a theorem about `Run` is about
every interleaving. Code that updates fields or loops is also written as a class or a method and
proved against the same functions. The parser is a function from path and bytes to an optional
sequence of named symbols with spans; nothing is assumed about it.

## What turned out false, and exactly when it holds

* **Blocking watch.** A parked `dk_watch` is always woken, provided no other call replaces the notify
  that it holds without a permit, and no restart aborts the last task that was going to notify it of
  something there (`NoLostWakeup`). Both limits are exact: a call whose notify is replaced is never
  woken again iff it had no permit (`ReplacedNotifyNeverWakes`), and an abort leaves it unwoken iff
  it takes away the last notifier (`AbortStrandsIff`). Both happen from every waiting state
  (`ResetByAnotherCallStrands`, `AbortBeforeNotifyStrands`).
* **Overflow reports.** Every dropped event is covered by an overflow report made after the drop,
  provided no restart aborts the stream task inside a drop, between finding the buffer full and
  setting the flag (`DropsAreReported`). Such an abort keeps the drop covered iff the flag is set
  already or a report was made since (`AbortedDropCoveredIff`); from every state with a full buffer
  and a clear flag it loses the report for good (`AbortedDropIsNeverReported`), and such states are
  reached (`FullBufferIsReachable`).
* **Stream restarts.** No stream is ever orphaned, but two overlapping starts, with the same filter
  or with different ones, can leave as the only live stream one that has been told to stop at its
  next event, with the other's filter and flag recorded (`OverlapMisrecords`). In every interleaving
  a stream has been told to stop iff the recorded flag is not its own (`ToldToStopIffNotRecorded`),
  and when calls do not overlap the record is right (`CallsApartRecordRight`).
* **Staleness recovery.** The refusal tells the agent to re-read and retry. That works iff the
  overlay has the file, or has nothing of it and the base has it (`RecoversIffReadable`). A file that
  only the competitor has created cannot be read, reading it records nothing, a refused write does
  not put it into the overlay, and so the writes stay refused while a foreign changeset that lists
  the file stays live (`UnreadableStaysRefused`); this comes about from every state in which the
  session knows nothing of the file (`RefusalIsReachable`).
* **The staleness check is not atomic with the write.** An accepted write has read the path after
  the last update of every foreign live changeset on it, except one that changed between the check
  and the acceptance (`AcceptedWriteSawAllButTheRace`), and such a submission is written over unseen
  (`RaceSlipsPast`). The locks narrow it to submissions of other symbols of the path, and to the
  time before the claims for the write's own.
* **Bus projection.** A receiver of a repository gets its part of what an all receiver gets, in the
  same order, as long as no event of the repository is sent on its channel while another one is
  between its two sends. That condition is exact for the order to be safe (`OrderIsSafeIffApart`);
  publishes of other repositories may overlap in any way, and so may the preparation of this
  one's. From every state with two different events under way on the channel the order can be lost,
  and then it is lost for good (`OverlapLosesTheOrder`). For the projection to hold from the
  subscription on, the key must be a repository, and none of its publishes may at the subscription be
  between its sends or hold a sender that is no longer in the bus: those are missed
  (`ProjectionIffSettled`). The same is exact for how often each event comes, with any overlap
  (`AgreementIffSettled`). A cleanup makes such senders (`CleanupLosesAnUnsentEvent`).
* **Filters.** `*.s` means "anything followed by `.s`" unless `s` is `*` or ends in `.*`; then the
  pattern is read as a prefix with a literal star, and some type with that suffix does not match
  (`SuffixPattern`, `PrefixPattern`).
* **Resolve.** It answers `submitted` whatever happens; the answer is true iff the changeset was in
  one of the four expected states (`HandleResolve`).
* **Approve** goes from submitted or rejected straight to approved, which the documented transition
  table does not have; it follows the table iff the changeset is being verified
  (`ApproveFollowsTableIffVerifying`).
* **Command scoping** keeps every word of a cargo command, but a scoped bun or pytest command keeps
  the words given iff there are none beyond the tool's own (`OtherToolsKeepWordsIffBare`).
* **Token budget.** The estimate is exact and within the budget, but headers that did not fit are
  still returned: what is returned stays within the budget iff every header fitted
  (`ReturnedWithinBudgetIffAllFit`).
* **Re-index.** The search index keeps agreeing with the table iff no symbol is stored under a
  qualified name that has a row already; an entry made stale that way is never removed
  (`IndexAgreesIffNoConflict`, `StaleStaysStale`).

## Model

| member | source | states |
|---|---|---|
| SymbolDiff.DetectSymbolChanges | crates/dk-protocol/src/file_write.rs:392-551 | the reported names are the changed ones; unsupported or unparseable content reports nothing, a missing or unparseable base reports all; kept changes come before deletions and deletions are not in the first list |
| SymbolDiff.OldTexts | crates/dk-protocol/src/file_write.rs:458-472 | the map of old texts has each old name with a usable span, under the text of its first occurrence |
| SymbolDiff.DiffKept | crates/dk-protocol/src/file_write.rs:474-521 | each name of the new content is reported once at most, as added or modified, and every such change is reported |
| SymbolDiff.DiffDeleted | crates/dk-protocol/src/file_write.rs:523-545 | exactly the old names that are not new are reported deleted, once each, with the kind of their first occurrence |
| SymbolDiff.DiffIsExact | crates/dk-protocol/src/file_write.rs:458-550 | with usable spans: added = new minus old, deleted = old minus new, modified = shared names whose first text differs, one detail per name |
| SymbolDiff.AddedIff | crates/dk-protocol/src/file_write.rs:474-505 | for any spans: added iff the first new symbol of the name has a usable span and no old one has |
| SymbolDiff.ModifiedIff | crates/dk-protocol/src/file_write.rs:487-517 | modified iff that symbol's text is not the text of the first old one with a usable span |
| SymbolDiff.DeletedIff | crates/dk-protocol/src/file_write.rs:523-545 | deleted iff an old symbol has the name and no new one |
| SymbolDiff.NameChangesIff | crates/dk-protocol/src/file_write.rs:458-550 | with usable spans a name is reported iff it is new, gone, or the bytes of its first occurrence differ |
| SymbolDiff.ChangedNamesAre | crates/dk-protocol/src/file_write.rs:401-456 | nothing for unsupported or unparseable content, every name without a parseable non-empty base, else the names that change |
| SymbolDiff.SelfDiffIsEmpty | crates/dk-protocol/src/file_write.rs:458-550 | diffing a content with itself reports nothing |
| SymbolDiff.SwapDiff | crates/dk-protocol/src/file_write.rs:458-550 | exchanging the two contents exchanges added with deleted and keeps modified |
| ClaimTracker.LocalClaimTracker.AcquireLock | crates/dk-engine/src/conflict/claim_tracker.rs:172-207 | fresh iff nobody holds the key, re-acquired iff the caller does, otherwise locked with the holder's name; only a fresh answer changes who holds what |
| ClaimTracker.LocalClaimTracker.ReleaseLock | crates/dk-engine/src/conflict/claim_tracker.rs:209-223 | the key is freed if the caller holds it; nothing else changes |
| ClaimTracker.LocalClaimTracker.ReleaseLocks | crates/dk-engine/src/conflict/claim_tracker.rs:225-257 | every lock of the session in the repository goes, each is returned exactly once, and nobody else's is touched |
| ClaimTracker.LocalClaimTracker.ReleaseFile | crates/dk-engine/src/conflict/claim_tracker.rs:225-257 | the same for one file entry |
| WriteProtocol.OpenWritesAreLocked | crates/dk-protocol/src/file_write.rs:174-338 | in every interleaving, for each path a session had accepted since its last release, every symbol changed between base and overlay is locked by it |
| WriteProtocol.AcceptedWritesStayLocked | crates/dk-protocol/src/file_write.rs:174-338 | from the moment a write is stored until its session begins a release, whatever others do, every symbol that the stored content changes is locked by the session |
| WriteProtocol.AcceptedWriteHoldsItsSymbols | crates/dk-protocol/src/file_write.rs:189-345 | in every interleaving an accepted write stores its content and its session then holds exactly what it held and every symbol that the write changes |
| WriteProtocol.NoSharedSymbol | crates/dk-protocol/src/file_write.rs:174-338 | hence the unreleased writes of two sessions of a repository never change the same symbol of a path |
| WriteProtocol.RejectedWriteIsNoOp | crates/dk-protocol/src/file_write.rs:189-336 | in every interleaving a rejected or failed write leaves its session's locks, overlay and changeset files as before the call, and announces exactly the freshly granted locks, once each |
| WriteProtocol.RejectedWriteClaimedItsOwn | crates/dk-protocol/src/file_write.rs:189-265 | what it had claimed for a while are symbols that the write changes |
| WriteProtocol.EveryCallEnds | crates/dk-protocol/src/file_write.rs:189-345 | whatever others do, each next action of a write, rollback or release brings it nearer to its end, within a bound |
| WriteProtocol.NextExists | crates/dk-protocol/src/file_write.rs:189-345 | and there is always such a next action until the call has ended |
| WriteProtocol.EveryReleaseIsAnnouncedOnce | crates/dk-protocol/src/file_write.rs:233-265 | for a session between calls, grants = announcements + locks still held, counted with multiplicity |
| WriteProtocol.RunKeeps | crates/dk-protocol/src/file_write.rs:174-338 | the lock invariant is kept by every step of every session |
| WriteProtocol.ReleaseIsComplete | crates/dk-protocol/src/merge.rs:278-328 | the announcement that ends a release leaves the session without locks and announces what was released |
| WriteProtocol.ReleaseTakesEverything | crates/dk-protocol/src/merge.rs:105-117 | in every interleaving a release by an idle session (submit or merge) frees every lock it had, announces each once and leaves it idle with nothing open |
| WriteProtocol.ReleaseExists | crates/dk-protocol/src/merge.rs:278-328 | such a release is possible from every state |
| WriteProtocol.SecondReleaseIsEmpty | crates/dk-protocol/src/merge.rs:105-117 | until the session writes again, further submits and merges release and announce nothing |
| WriteProtocol.ClaimsInOrder | crates/dk-protocol/src/file_write.rs:189-231 | run alone, the acquire loop claims every name nobody holds and is blocked iff another session holds one |
| WriteProtocol.WriteAlone | crates/dk-protocol/src/file_write.rs:174-345 | run alone, a write is stored iff none of its symbols is held by another session, with all of them claimed; otherwise it rolls back |
| Handlers.Server.HandleFileRead | crates/dk-engine/src/workspace/session_workspace.rs:256-284 | the overlay decides, also when it says deleted, else the base; the read time is recorded iff the file was found |
| Handlers.Server.HandleFileWrite | crates/dk-protocol/src/file_write.rs:37-390 | accepted iff not stale, no symbol held by another session and nothing else fails; any other reply leaves locks, workspaces and files as they were and announces each transient lock once |
| Handlers.Server.AcquireAll | crates/dk-protocol/src/file_write.rs:186-231 | the loop goes on after a refusal; the fresh claims are the changed symbols nobody held, each once even if a name repeats |
| Handlers.Server.RollBack | crates/dk-protocol/src/file_write.rs:233-259 | exactly the fresh claims are given back, with one event each |
| Handlers.UndoRestores | crates/dk-protocol/src/file_write.rs:233-259 | claiming and then giving back the fresh claims restores the lock table |
| Handlers.Server.ClaimAndStore | crates/dk-protocol/src/file_write.rs:174-390 | all claims and the overlay and the changeset entry, or nothing |
| Handlers.Server.WriteOverBase | crates/dk-protocol/src/file_write.rs:174-345 | over a base that parses, as the content does, with usable spans: refused iff another session holds a symbol that is new, gone or has another text; accepted, the session holds what it held and exactly those |
| Handlers.Server.WriteOverNothing | crates/dk-protocol/src/file_write.rs:412-456 | the same with every symbol of the content where the base is missing, empty or does not parse |
| Handlers.ChangesUnparsed | crates/dk-protocol/src/file_write.rs:401-410 | a file that the parser does not support or cannot parse needs no lock |
| Handlers.SameBaseSameChanges | crates/dk-protocol/src/file_write.rs:174-176 | a workspace and the step system with the same base agree on what a write changes |
| Handlers.StaleForIff | crates/dk-protocol/src/file_write.rs:106-172 | stale iff a submitted, verifying or approved changeset of another session was updated after the last read of the path, or ever without one |
| Handlers.Server.HandleSubmit | crates/dk-protocol/src/submit.rs:21-463 | an empty overlay is nothing to submit; an error up to the status update changes only stored files; after it the status, the announcement and, with release-on-submit, the release have happened even if the reply is an error |
| Handlers.Server.HandleMerge | crates/dk-protocol/src/merge.rs:16-276 | an unknown changeset is not found, and only an approved one merges; a conflict or failure before the release releases nothing, a success releases all and says so |
| Handlers.Server.ReleaseLocksAndEmit | crates/dk-protocol/src/merge.rs:278-328 | the events of one release partition exactly the released locks by file; the count is their number |
| Handlers.EachNamedOnce | crates/dk-protocol/src/merge.rs:288-327 | in such events every released lock is named in exactly one place, and nothing else is |
| Handlers.GroupByFile | crates/dk-protocol/src/merge.rs:296-304 | the groups hold exactly the released names, each once, no group empty |
| Handlers.Server.SubmitThenMerge | crates/dk-protocol/src/submit.rs:414-432 | of a submit and then a merge with no write between the events are the submit, one event per file that together name each lock exactly once, and the merge; the second release counts 0 |
| StaleOverlay.IsStale | crates/dk-protocol/src/stale_overlay.rs:53-70 | the answer is the first foreign live competitor updated after the last read (or never read), if there is one |
| StaleOverlay.IsStaleIff | crates/dk-protocol/src/stale_overlay.rs:32-70 | there is one iff a submitted, verifying or approved changeset of another session was updated after the last read, or ever without one |
| StaleOverlay.FilterFirst | crates/dk-engine/src/changeset.rs:573-591 | filtering by the live states in the query never changes the answer |
| StaleOverlay.PolicyRefuses | crates/dk-protocol/src/stale_overlay.rs:53-70 | whatever order the query answers in, the check refuses iff some foreign live changeset lists the path and is newer than the last read |
| StaleOverlay.PassedCheckSawEverything | crates/dk-protocol/src/file_write.rs:106-172 | a write that passes has read the path after the last update of every foreign live changeset on it |
| StaleOverlay.RefusedAfterReadMeansNewUpdate | crates/dk-protocol/src/file_write.rs:106-172 | after a successful re-read a retry is refused only on a competitor updated strictly after that read |
| StaleOverlay.LaterStatusRefuses | crates/dk-engine/src/changeset.rs:304-324 | and conversely any later change to a live state of another session's changeset on the path makes the check refuse again |
| StaleOverlay.RecoversIffReadable | crates/dk-protocol/src/file_read.rs:42-49 | re-read and retry succeeds iff the overlay has the file, or has nothing of it and the base has it; otherwise the read changes nothing |
| StaleOverlay.UnreadableStaysRefused | crates/dk-protocol/src/file_write.rs:106-172 | while some foreign changeset on the path is live, every write of a session that cannot read it is refused and every read fails; it is refused exactly as long |
| StaleOverlay.RefusalIsReachable | crates/dk-protocol/src/file_write.rs:106-172 | another session creates and submits a file: write refused, read failed, retry refused, nothing changed |
| StaleOverlay.AcceptedWriteSawAllButTheRace | crates/dk-protocol/src/file_write.rs:98-345 | an accepted checked write had read the path after every foreign live update, except a change between its check and its acceptance |
| StaleOverlay.SinceIsSinceTheCheck | crates/dk-protocol/src/file_write.rs:98-345 | that change is an action on the changeset while the write was under way |
| StaleOverlay.AcceptedIsReadBack | crates/dk-engine/src/workspace/session_workspace.rs:256-284 | an accepted content is what the next read finds |
| StaleOverlay.RaceSlipsPast | crates/dk-protocol/src/file_write.rs:98-345 | a submission behind a passed check is written over unseen |
| StaleOverlay.DatedByAnUpdate | crates/dk-engine/src/changeset.rs:304-324 | a changeset is dated after an instant only by a status change after it |
| StaleOverlay.ContentChangesGoUnseen | crates/dk-engine/src/changeset.rs:378-399 | storing file content does not date a changeset: rewriting listed files never changes the answer |
| WatchBuffer.BufferRefinesLog | crates/dk-mcp/src/server.rs:907-942 | between drains the buffer is the de-duplicated arrivals when nothing overflowed, never more than 100, never two with one non-empty id |
| WatchBuffer.DedupIsTheFirsts | crates/dk-mcp/src/server.rs:907-926 | the de-duplicated arrivals are, in order, exactly those without an id and the first of each id; none else is lost or kept |
| WatchBuffer.ArrivalKeeps | crates/dk-mcp/src/server.rs:907-926 | an arrival keeps the bound and the distinct ids |
| WatchBuffer.WatchMaps.BufferEvent | crates/dk-mcp/src/server.rs:907-942 | an event is stored, dropped with the flag set, or a duplicate, exactly by buffer and id; only that session's entries change |
| WatchBuffer.WatchMaps.Drain | crates/dk-mcp/src/server.rs:697-707 | a drain returns the buffer and the flag and leaves both empty |
| WatchBuffer.WatchMaps.Deliver | crates/dk-mcp/src/server.rs:907-942 | delivering a sequence buffers its events in order and leaves a stored permit when something is to be seen |
| WatchBuffer.WatchMaps.DkWatch | crates/dk-mcp/src/server.rs:3129-3220 | a call reports everything buffered and replaces the notify iff it found something at once; a blocking call wakes after any non-empty part of what arrives, reports it and leaves the rest buffered with a permit |
| WatchBuffer.WatchMaps.Cleanup | crates/dk-mcp/src/server.rs:679-695 | nothing of the session is left and a waiting call is notified |
| WatchWakeup.NoLostWakeup | crates/dk-mcp/src/server.rs:3129-3220 | whenever the call is parked and something is buffered or dropped, a permit is stored or somebody is about to notify |
| WatchWakeup.AbortStrandsIff | crates/dk-mcp/src/server.rs:783-793 | an abort leaves a drained call with something to report and nobody to wake it iff it takes away the last notifier |
| WatchWakeup.ReplacedNotifyNeverWakes | crates/dk-mcp/src/server.rs:3207-3212 | a parked call whose notify is replaced is never woken, whatever follows, iff it has no permit |
| WatchWakeup.NotifyReachesWaiter | crates/dk-mcp/src/server.rs:922-941 | a task's notify reaches the parked call |
| WatchWakeup.CleanupReachesWaiter | crates/dk-mcp/src/server.rs:690-694 | a cleanup's notify reaches the parked call |
| WatchWakeup.CallReportsWhatIsThere | crates/dk-mcp/src/server.rs:3129-3220 | a call's first drain takes exactly what is buffered and the flag; it parks iff there was neither, else it reports and makes a fresh notify |
| WatchWakeup.WokenCallDrainsAgain | crates/dk-mcp/src/server.rs:3140-3190 | a parked call goes on only with its permit or its timeout; woken, it drains once more and is done |
| WatchWakeup.TaskHandlesEvent | crates/dk-mcp/src/server.rs:907-942 | a task leaves a duplicate alone; any other event is buffered, or dropped with the flag set, and the notify gets a permit |
| WatchWakeup.CleanupForgets | crates/dk-mcp/src/server.rs:679-695 | a cleanup's four sections leave nothing of the session and a permit in its old notify |
| WatchWakeup.DropsAreReported | crates/dk-mcp/src/server.rs:697-707 | with the two locks of a drain interleaved and any other calls, every dropped event is covered by a report after the drop, by the flag, or its task is about to set it, if no task is aborted inside its drop |
| WatchWakeup.AbortedDropCoveredIff | crates/dk-mcp/src/server.rs:927-935 | an abort inside a drop keeps it covered iff the flag is set or a report was made since |
| WatchWakeup.AbortedDropIsNeverReported | crates/dk-mcp/src/server.rs:927-935 | with a full buffer and a clear flag, an abort inside the next drop leaves it unreported, with nothing to tell |
| WatchWakeup.FullBufferIsReachable | crates/dk-mcp/src/server.rs:907-926 | such full buffers are reached |
| WatchWakeup.ResetByAnotherCallStrands | crates/dk-mcp/src/server.rs:3207-3212 | another call's reset strands a waiting call, from every waiting state |
| WatchWakeup.AbortBeforeNotifyStrands | crates/dk-mcp/src/server.rs:783-793 | aborting a task between buffering and notifying strands it too |
| WatchWakeup.WaitingIsReachable | crates/dk-mcp/src/server.rs:3129-3175 | such waiting states are reached |
| WatchStreams.NoOrphanedStream | crates/dk-mcp/src/server.rs:767-972 | in every interleaving of starts, restarts, client failures and cleanups each live task is in the map or belongs to a running call; at rest at most one is live |
| WatchStreams.ToldToStopIffNotRecorded | crates/dk-mcp/src/server.rs:833-841 | a stream has been told to stop iff the recorded flag is not its own |
| WatchStreams.CallsApartRecordRight | crates/dk-mcp/src/server.rs:767-972 | without overlap the recorded filter and flag are the live stream's, and it was not told to stop |
| WatchStreams.OverlapMisrecords | crates/dk-mcp/src/server.rs:767-972 | for any two filters, equal ones included, an overlap whose only live stream has been told to stop, after which a start with the recorded filter does nothing |
| WatchStreams.SameFilterIsNoOp | crates/dk-mcp/src/server.rs:775-785 | a start with the recorded filter leaves a running stream alone |
| WatchStreams.EndedStreamIsReplaced | crates/dk-mcp/src/server.rs:775-805 | a stream that ended by itself is replaced even by a start with the recorded filter, and told to stop |
| WatchStreams.WatchServer.StartWatchStream | crates/dk-mcp/src/server.rs:767-972 | one running stream with the wanted filter given a client, none without; other sessions and other tasks untouched |
| WatchStreams.WatchServer.Stop | crates/dk-mcp/src/server.rs:679-686 | nothing recorded or running is left for the session; others untouched |
| WatchStreams.StartIsARun | crates/dk-mcp/src/server.rs:767-972 | the object's start equals the step system's sections run alone |
| WatchStreams.FailedStartIsARun | crates/dk-mcp/src/server.rs:767-825 | the same for a start that gets no client |
| WatchStreams.StopIsARun | crates/dk-mcp/src/server.rs:679-686 | the same for a cleanup |
| EventBus.ReceiverHearsItsKey | crates/dk-protocol/src/events.rs:47-87 | however publishes overlap, a receiver gets exactly what is sent on its key's channel since its subscription, in the order of the sends |
| EventBus.EachPublishIsHeardOnce | crates/dk-protocol/src/events.rs:47-61 | a repository's receiver gets each publish held unsent on its channel at the start or begun since, once, but for those still unsent |
| EventBus.SendsInOneGo | crates/dk-protocol/src/events.rs:47-61 | with publishes in one go the sends are in the order of publication; the all channel gets an event of the key `__all__` twice |
| EventBus.OrderIsSafeIffApart | crates/dk-protocol/src/events.rs:47-61 | in no state of a run can a send on the all channel put the two streams in different orders, iff no event of the repository is sent on its channel while another one is between its sends |
| EventBus.OverlapLosesTheOrder | crates/dk-protocol/src/events.rs:47-61 | from every state in which the streams agree and two different events are under way on the channel, four sends after which they never agree again |
| EventBus.ProjectionIffSettled | crates/dk-protocol/src/events.rs:47-87 | while the repository's publishes keep apart its stream is its part of the all receiver's, then what is between its sends, in every run iff the key is a repository with nothing missed at the subscription |
| EventBus.ProjectedAgrees | crates/dk-protocol/src/events.rs:47-61 | then the two streams agree iff nothing of the repository is between its sends |
| EventBus.PublishesInTurnProject | crates/dk-protocol/src/events.rs:47-87 | it is enough that a publish of the repository begins only when no other one of it is under way |
| EventBus.AgreementIffSettled | crates/dk-protocol/src/events.rs:47-87 | however publishes overlap, the repository's receiver has its events as often as the all receiver, counting those still to be sent to it, in every run iff nothing was missed at the subscription |
| EventBus.UnderWayIsHeardIff | crates/dk-protocol/src/events.rs:47-87 | a publish under way and unsent at a subscription reaches the receiver iff the sender that it holds is the one in the bus |
| EventBus.ProjectionIffRepository | crates/dk-protocol/src/events.rs:47-87 | with publishes in one go the repository's stream is its part of the all receiver's, whatever was under way before, iff the key is a repository |
| EventBus.CleanupLosesAnUnsentEvent | crates/dk-protocol/src/events.rs:97-100 | from every state in which a repository has no receiver, a publish that holds the sender over a cleanup is missed by a receiver that subscribes after it |
| EventBus.OnlyRemovalDisconnects | crates/dk-protocol/src/events.rs:89-100 | whatever else happens, cleanups included, a receiver stays connected until dropped or its repository removed; the all channel is never removed |
| EventBus.RemovalCutsOff | crates/dk-protocol/src/events.rs:89-93 | a receiver whose repository is removed never gets another event, whatever is published or subscribed later, if no publish to it was under way |
| EventBus.Bus.Publish | crates/dk-protocol/src/events.rs:47-61 | a set repository gets the event on its channel, and the all channel gets every event |
| EventBus.Bus.Subscribe | crates/dk-protocol/src/events.rs:67-87 | the receiver listens to the key's channel, made if missing, from now on |
| EventBus.Bus.RemoveRepo | crates/dk-protocol/src/events.rs:89-93 | every receiver of that repository is cut off, no receiver of another key is, and the all channel is never removed |
| EventBus.Bus.CleanupIdle | crates/dk-protocol/src/events.rs:97-100 | what stays is the all channel and every channel with a receiver |
| Watch.PrefixPattern | crates/dk-protocol/src/watch.rs:86-93 | `p.*` matches iff the type is p, a dot, and a rest |
| Watch.SuffixPattern | crates/dk-protocol/src/watch.rs:94-97 | `*.s` matches exactly the types that are a rest, a dot, and s iff s is neither a star nor ends in `.*` |
| Watch.SuffixedIff | crates/dk-protocol/src/watch.rs:94-97 | the three conditions of that branch say that the type is a rest, a dot, and s |
| Watch.PlainPattern | crates/dk-protocol/src/watch.rs:86-101 | no filter or a star matches all; any other filter is an exact match |
| Watch.HandleWatch | crates/dk-protocol/src/watch.rs:59-83 | the client gets exactly the events of other sessions that match, in order from the first, all of them unless it goes away |
| Watch.ChannelFor | crates/dk-protocol/src/watch.rs:33-57 | the requested repository if there is one, else the session's, else everything; never the empty key |
| Watch.WatchSeesItsRepository | crates/dk-protocol/src/watch.rs:49-83 | end to end, however publishes overlap: until it goes away the client is sent exactly what is sent on its channel since its subscription by other sessions and matches, in the order of the sends; of a repository that is each publish once, and with publishes in one go it is the order of publication |
| Sink.NothingLostOrDoubled | crates/dk-analytics/src/sink.rs:160-194 | in every run, per table and in order, flushed ++ batch ++ channel is what emit accepted; the clock runs iff the batch has rows; flushes are non-empty and no larger than the batch size |
| Sink.EmitIsAcceptedIff | crates/dk-analytics/src/sink.rs:64-83 | emit succeeds iff the loop runs and the channel has room, and then the event is last in the channel |
| Sink.FlushesHaveReasons | crates/dk-analytics/src/sink.rs:160-194 | in every run a flush was of a full batch, or of one an interval old, or the last of a closed loop |
| Sink.FlushedOnClose | crates/dk-analytics/src/sink.rs:179-185 | at the end everything accepted was handed to flush |
| Sink.ClosingEnds | crates/dk-analytics/src/sink.rs:170-186 | without senders the loop ends within as many receives as there are events, and one more |
| Sink.DroppingSendersEnds | crates/dk-analytics/src/sink.rs:170-186 | so it does from every state of every run once the senders are dropped |
| Sink.NoRowWaitsTwoIntervals | crates/dk-analytics/src/sink.rs:186-192 | with ticks on time every row waits less than two intervals |
| Sink.AlmostTwoIntervalsHappens | crates/dk-analytics/src/sink.rs:186-192 | and that bound is exact |
| Sink.RunSink | crates/dk-analytics/src/sink.rs:160-194 | the loop over a batch object does what the step system says |
| Sink.Batch.Push | crates/dk-analytics/src/sink.rs:123-133 | the row goes to the end of its table; the clock starts with the first row |
| Sink.Batch.Take | crates/dk-analytics/src/sink.rs:149-157 | everything moves to the new batch and nothing stays |
| ChangesetStatus.NamesRoundTrip | crates/dk-engine/src/changeset.rs:21-45 | a text parses to a state iff it is that state's name |
| ChangesetStatus.TransitionsGoForward | crates/dk-engine/src/changeset.rs:47-67 | along documented transitions a changeset never goes back; a merged one was verified, then approved |
| ChangesetStatus.TransitionsAre | crates/dk-engine/src/changeset.rs:47-67 | where the documented transitions lead from each state |
| ChangesetStatus.ApproveFollowsTableIffVerifying | crates/dk-protocol/src/approve.rs:43-51 | approving is a documented transition iff the changeset is being verified |
| ChangesetStatus.GuardedChangesOnly | crates/dk-engine/src/changeset.rs:340-365 | among arbitrary other writers, approvals change submitted, verifying or rejected to approved in one step, and resolutions never move approved, merged or closed |
| ChangesetStatus.ApprovalTakesEffectIff | crates/dk-protocol/src/approve.rs:32-68 | among arbitrary other writers an approval of a submitted, verifying or rejected changeset takes effect iff it is in that state again at the update |
| ChangesetStatus.ResolutionTakesEffectIff | crates/dk-protocol/src/resolve.rs:66-77 | a resolution takes effect iff the changeset is a draft, submitted, verifying or rejected |
| ChangesetStatus.ChangesetStore.UpdateStatusIfWithReason | crates/dk-engine/src/changeset.rs:340-365 | updates the row iff its state is expected, and says so |
| ChangesetStatus.ChangesetStore.HandleApprove | crates/dk-protocol/src/approve.rs:32-68 | yes iff the state read can be approved and is unchanged at the update, whatever is written in between; then only this row changes |
| ChangesetStatus.ChangesetStore.HandleResolve | crates/dk-protocol/src/resolve.rs:66-89 | the reply is true iff the state was one of the four expected |
| Text.SpaceSeparates | crates/dk-runner/src/changeset.rs:32-38 | white space separates the words before it from those after |
| Text.JoinThenSplit | crates/dk-runner/src/changeset.rs:32-39 | joining parts with spaces and splitting gives the words of the parts |
| Text.JoinInTwo | crates/dk-runner/src/changeset.rs:32-39 | one space between the parts and none elsewhere |
| Text.TrimTakesEnds | crates/dk-runner/src/changeset.rs:18 | trimming takes white space and only that from both ends, all of it |
| CommandScope.FoundIffWitnessed | crates/dk-runner/src/changeset.rs:72-96 | a crate or directory is found iff its name is safe and a changed file lies under it |
| CommandScope.TopFoundIffWitnessed | crates/dk-runner/src/changeset.rs:98-109 | the same for top-level packages, except the tests directory |
| CommandScope.SafeNameIff | crates/dk-runner/src/changeset.rs:6-12 | safe iff not empty, no flag, and of ASCII letters, digits, hyphens, dots and underscores |
| Ordering.LessIff | crates/dk-runner/src/changeset.rs:80-81 | the order of names: a proper prefix, or smaller where they first differ |
| CommandScope.ExtractRustCrates | crates/dk-runner/src/changeset.rs:72-83 | the found crates in strictly ascending order |
| CommandScope.ExtractTsDirs | crates/dk-runner/src/changeset.rs:85-96 | the found directories in strictly ascending order |
| CommandScope.ExtractPythonPackages | crates/dk-runner/src/changeset.rs:98-109 | the found packages in strictly ascending order |
| CommandScope.ScopeCommandToChangeset | crates/dk-runner/src/changeset.rs:17-70 | the scoped command splits back into the intended words; none iff nothing is found or the tool is unknown |
| CommandScope.CargoKeepsWords | crates/dk-runner/src/changeset.rs:21-40 | for cargo: the first two words, `-p` and each crate, the remaining words |
| CommandScope.SameFilesSameWords | crates/dk-runner/src/changeset.rs:17-70 | permuting or repeating changed files changes nothing |
| CommandScope.OtherToolsKeepWordsIffBare | crates/dk-runner/src/changeset.rs:42-67 | bun and pytest keep the words given iff there are none beyond the tool's |
| Scheduler.RunWorkflow | crates/dk-runner/src/scheduler.rs:65-117 | yes iff every required step of every stage passes, skipped ones included |
| Scheduler.RunStageSequential | crates/dk-runner/src/scheduler.rs:146-184 | the results up to and with the first required failure |
| Scheduler.RunStageParallel | crates/dk-runner/src/scheduler.rs:119-144 | all results in order |
| Scheduler.StageVerdict | crates/dk-runner/src/scheduler.rs:164-181 | an early abort never changes a stage's verdict |
| Scheduler.VerdictIgnoresParallel | crates/dk-runner/src/scheduler.rs:79-113 | the verdict does not depend on which stages are parallel |
| Scheduler.SentInOrder | crates/dk-runner/src/scheduler.rs:65-117 | results are sent stage by stage |
| Scheduler.TimesAre | crates/dk-runner/src/scheduler.rs:119-184 | a parallel stage takes as long as its slowest step, a sequential one as the steps that run together, and stages follow one another |
| Scheduler.SequentialIsPrefixOfParallel | crates/dk-runner/src/scheduler.rs:119-184 | sequential results are a prefix of parallel ones, and equal iff no required step but the last fails |
| Scheduler.RunsWithinTimeouts | crates/dk-runner/src/scheduler.rs:65-184 | a run whose steps keep their timeouts takes no longer than all timeouts together |
| Scheduler.Verify | crates/dk-runner/src/runner.rs:108-146 | no stages is a pass, an invalid workflow an error; otherwise a pass iff in time and every required step passes, and the outer timeout makes no difference when it covers the steps' own |
| Detection.DetectWorkflow | crates/dk-runner/src/runner.rs:248-504 | the workflow of the plan over the scanned directories by name; auto-none when there is no step |
| Detection.ScanDirs | crates/dk-runner/src/runner.rs:253-280 | exactly the directories to look into, sorted by name |
| Detection.ListingOrderIrrelevant | crates/dk-runner/src/runner.rs:258-280 | the order of the directory listing makes no difference |
| Detection.PlanExact | crates/dk-runner/src/runner.rs:306-464 | a directory gets exactly the steps of its languages, each once, without those of the root |
| Detection.RustSteps | crates/dk-runner/src/runner.rs:309-336 | the two steps of a Cargo manifest, with command, timeout and directory, unless the root has one too |
| Detection.PackageManifestSteps | crates/dk-runner/src/runner.rs:338-374 | the steps of a package manifest, with bun iff there is a lock file of it, unless the root has the same |
| Detection.PythonProjectSteps | crates/dk-runner/src/runner.rs:376-419 | the installs that the files ask for and the test of a Python project, unless the root is one |
| Detection.GoSteps | crates/dk-runner/src/runner.rs:421-461 | the three steps of a Go module, unless the root is one |
| Detection.StepsInOrder | crates/dk-runner/src/runner.rs:306-464 | a directory's steps are these four lists in this order |
| Detection.PlanAllExact | crates/dk-runner/src/runner.rs:306-464 | a step is planned iff its directory wants it |
| Detection.RootLanguageWins | crates/dk-runner/src/runner.rs:282-304 | no subdirectory has a step for a language of the root |
| Detection.NamesTellApart | crates/dk-runner/src/runner.rs:316-335 | a step's name determines its directory, language and kind |
| Detection.StepNamesDiffer | crates/dk-runner/src/runner.rs:306-464 | no two steps of a workflow have the same name |
| Detection.TimeoutCoversTheRun | crates/dk-runner/src/runner.rs:486-503 | the derived timeout covers every run in which the steps keep theirs |
| TokenBudget.BudgetIsExact | crates/dk-protocol/src/context.rs:140-172 | nothing underflows; budget minus rest = headers that fitted + sources kept; sources are prefixes, cut only when nothing is left |
| TokenBudget.Truncate | crates/dk-protocol/src/context.rs:144-169 | the loop in place does exactly that |
| TokenBudget.EstimateAndTruncate | crates/dk-protocol/src/context.rs:125-172 | the estimate never exceeds a set budget; it is the spent tokens, or a quarter of all bytes when nothing is cut |
| TokenBudget.ReturnedWithinBudgetIffAllFit | crates/dk-protocol/src/context.rs:151-156 | what is returned stays within the budget iff every header fitted |
| TokenBudget.CastsExactIffShort | crates/dk-protocol/src/context.rs:158-160 | the 32-bit cast is exact iff the source is shorter than four times 2^32 bytes |
| TokenBudget.HeadersAndCasts | crates/dk-protocol/src/context.rs:125-150 | a header counts a quarter of name and signature; the cast forgets whole multiples of 2^32 |
| Reindex.IndexAgreesIffNoConflict | crates/dk-engine/src/repo.rs:372-413 | index entries = table ids at the end iff no symbol was stored under a name that had a row |
| Reindex.StaleStaysStale | crates/dk-engine/src/repo.rs:376-381 | a stale index entry is never taken out |
| Reindex.OwnedNamesNeverConflict | crates/dk-engine/src/graph/symbols.rs:67-121 | names that belong to one file each, parsed once each, never conflict |
| Reindex.RowsAreLatest | crates/dk-engine/src/repo.rs:372-410 | rows of changed files are their latest parse, rows of other files are as before |
| Reindex.LatestVisitDecides | crates/dk-engine/src/repo.rs:372-410 | a file's latest visit alone decides its rows |
| Reindex.EdgesLiveWithTheirEnds | crates/dk-engine/src/graph/callgraph.rs:112-137 | without a conflict an old edge survives iff both its ends do |
| Reindex.ResolveCallEdges | crates/dk-engine/src/repo.rs:555-582 | an edge comes out for exactly the raw edges both of whose names resolve |
| Reindex.ResolvesToLast | crates/dk-engine/src/repo.rs:561-568 | a name resolves iff a parsed symbol has it, to the last such symbol |
| Reindex.ResolvedEdgeGoes | crates/dk-engine/src/repo.rs:569-582 | a resolved edge goes from the last symbol of the caller's name to the last of the callee's |
| Reindex.ResolvedEndsInTable | crates/dk-engine/src/repo.rs:417-421 | without conflicts and with each file once, every resolved edge has both ends in the table |
| Reindex.Engine.UpdateFilesByRoot | crates/dk-engine/src/repo.rs:357-424 | stops at the first unreadable file with nothing committed; otherwise commits and inserts the resolved edges in order, up to the first without both ends in the table, which is an error |
| Reindex.Engine.UpsertSymbol | crates/dk-engine/src/graph/symbols.rs:71-122 | a row of the same name gets the new id and its edges follow |
| Reindex.EdgesFollow | crates/dk-engine/src/graph/symbols.rs:84-103 | after a conflicting upsert exactly the edges of the old row are those of the new id, and all others are as before |
| Reindex.Engine.InsertEdges | crates/dk-engine/src/graph/callgraph.rs:56-75 | old edges stay; the inserted ones are those before the first without both ends; twice is once |

## Left out

- Session connect, close, stranding, resume, abandon and garbage collection, and what they do to locks.
- Overlay writes that bypass the locks: inline changes of a submit, manual content of a resolve, the tool layer's file write. The lock theorems are about the file-write call.
- The merge algorithm itself: its outcome is an input.
- Two calls of one session at the same time in the write protocol, and two blocking watches of one session.
- A failing git read of the base during a file write is not told apart from a missing file; the code treats both as a new file.
- Server.HandleFileRead: the hash of the answer, and how a file gets deleted in an overlay, are not modelled.
- Server.HandleSubmit: only the path without inline changes; the affected-symbol records and the re-index are reduced to whether they fail.
- Server.HandleMerge: branch protection, review gates and the git commit are not modelled.
- DkWatch: starting the stream and the conflict warnings it puts in front are not part of it.
- HandleWatch: a lagging receiver only skips; which events it loses is not modelled, so the projection theorems are for receivers that do not lag.
- StartWatchStream: the claim section and the two inner sections it nests are one step in the interleaved model; the order of the inner locks does not matter to which task is alive.
- Routing of conflict events to warnings, and the text of every message.
- RunSink: what happens to a batch after it is handed to flush, errors of the database included.
- HandleResolve: the overlay write of the manual mode and the rejection of an unspecified mode.
- Two directory names that differ only in bytes that are not UTF-8 look the same after the lossy conversion; the detection theorems are for listings whose names differ.
- DetectWorkflow: the workflow's own name, which only appears in logs.
- Scoping for a step that runs in a subdirectory: the prefix is cut off the changed paths before scoping; the denylist of commands.
- Slicing text on a UTF-8 boundary: texts are byte sequences, so the panic of a cut inside a character is not modelled.
- The full index of a new repository, type information, search ranking, and several repositories in one index.
- I/O, SQL, Redis, NATS, gRPC, clocks and random ids: they are maps, inputs or numbers here.
