# Verification model of the container runner

A webhook-driven runner starts one container per card or chat session, feeds its stdin, streams its
logs, and keeps credentials fresh.  Around Docker and HTTP it has several small concurrent protocols
and indexed caches, and a good deal of text handling.  This project models those parts in Dafny 4.11
and proves what they promise.  `dafny verify dfyconfig.toml` checks all of it.

## What is modelled

| file | system |
|---|---|
| `Prelude.dfy` | optional values, bytes, minimum and maximum |
| `RecencyList.dfy`, `CacheHistory.dfy` | the list-plus-index structure the three caches share, and histories of such lists |
| `TimestampedMaps.dfy` | the timestamped map with oldest-first eviction that the two TTL caches stand for |
| `ReplayCaches.dfy`, `DnsCaches.dfy` | replayed-signature set, LRU of resolved hosts |
| `Identifiers.dfy`, `MessageDedup.dfy`, `MessageHandling.dfy` | dedup of `/message` deliveries and the handler around it |
| `Trackers.dfy` | the string-keyed map of cards and chats and the shared limit |
| `StdinProtocol.dfy`, `StdinGuarantees.dfy` | the tracker's two-level locking of container stdin, over all interleavings, and what follows for writers and waiters |
| `StdinSteps.dfy`, `StdinOutcomes.dfy` | what its calls answer |
| `Broadcast.dfy`, `BroadcastGuarantees.dfy`, `BroadcastCalls.dfy` | fan-out of log entries, drops, unsubscribe; whom a call reaches |
| `Truncation.dfy` | rune-safe truncation |
| `CardRuns.dfy` | one card run from start to container removal |
| `OrphanSweep.dfy` | triggers, runs and maintenance sweeps, interleaved |
| `ChatResume.dfy`, `ChatGuarantees.dfy` | ownership of chat resume directories and redaction secrets |
| `BoundedLines.dfy` | line reader and stream loop |
| `Redaction.dfy`, `OneSecret.dfy`, `SeveralSecrets.dfy`, `Redactors.dfy` | literal secret masking: secrets that cannot overlap the mark, one secret exactly, several with brackets, the redactor |
| `SecretsFile.dfy`, `SecretsWrite.dfy` | the shared secrets file, its shell reader, its atomic replacement |
| `RefreshSchedule.dfy` | wake-ups, backoff and rate of the token refresher |

Sequential code that updates state is a class or method proved against a function of the old state.
Concurrent code is a state machine over values: one thread per call or goroutine, one step per lock,
blocking call or visible effect, and a run is any sequence of states in which each follows from the one
before by some enabled step.  A call that never returns is a thread that never takes its next step.
Clocks, Docker, file-system, resolver and GitHub answers are arguments of a call or arbitrary choices of a
step.

## Where the code and its comments differ

- `internal/container/secrets_refresher.go:53-58` says a newline in a secret value would break the
  rendered line.  Under sections 2.2.1 and 2.2.2 of the POSIX.1-2017 Shell Command Language a newline
  inside single quotes is literal, and the quoting rules give back every value (a NUL byte, which no shell
  keeps, the renderer refuses along with newlines).  What the round trip needs is that every key is a shell
  name (`SecretsFile.ReadsBackExactly`).  The renderer alone admits other keys, and then two maps can render to
  the same bytes (`SecretsFile.UnnamedKeysClash`); the keys the runner passes to it are constants that are shell
  names (`SecretsFile.AuthEnvIsNamed`), so that for the runner's own files the results hold without a condition
  (`SecretsFile.AuthFileReadsBack`, `SecretsFile.SameAuthFile`, `SecretsWrite.RefreshThroughCrashes`).
- The literal pass of `Redactor.Redact` is promised to mask every configured secret
  (`internal/logparser/parser.go:114-122`).  For secrets without brackets that holds with exactly one
  exception, the secret "REDACTED" itself (`Redaction.CleanExactlyWithout`); a secret that ends like the
  mark can survive (`Redaction.BracketedSecretSurvives`), and `OneSecret.MaskedExactly` says exactly which
  ones can; with a token beside it, `SeveralSecrets.PairMaskedExactly` does.
- `nextWake` subtracts the expiry buffer from a duration that has saturated at the bottom of int64, which
  wraps around: an expiry more than 292 years past is read as one 292 years ahead
  (`RefreshSchedule.ClampedExactly`, `RefreshSchedule.FarPastExpirySleeps`).
- The rollback of a chat that cannot be tracked only logs an error of `Manager.Stop` and then removes the resume
  directory mounted into the container (`internal/webhook/chat.go:134-167`), and the wait goroutine removes it
  whatever became of the wait.  `Manager.Stop` makes two calls and reports an error if either fails
  (`internal/container/manager.go:3019-3039`), so the error alone does not mean that the container runs
  (`ChatGuarantees.FailedStopIsNotEnough`); `ChatGuarantees.RemovedUnderContainerExactly` says exactly when it may, and
  `ChatGuarantees.RollbackRemovesUnderContainer` and `ChatGuarantees.WaitRemovesUnderContainer` are runs in which it does.
- SetStdin holds `tracker.mu` while it waits for an entry's `stdin.mu`
  (`internal/tracker/tracker.go:301-312`), so a second attach to an entry can stop the whole tracker behind a
  hanging Write (`StdinGuarantees.SecondAttachWaitsForWrite`, exactly when: `StdinGuarantees.HolderCanStep`).
- The replay cache counts an entry of age exactly `ttl` as a replay while its sweep already drops it
  (`internal/webhook/replay_cache.go:117`, `:180`); `ReplayCaches.ReplayExact` states both boundaries and
  `ReplayCaches.BoundaryDependsOnSweep` shows the two answers.

## Model

| member | source | states |
|---|---|---|
| StdinGuarantees.NeverTwice | internal/tracker/tracker.go:289-577 | under every interleaving of add, attach, write, close, mark-closed, remove and cancel no writer is written to after the tracker closed it or it was given up, none is closed twice, no onClose runs twice |
| StdinOutcomes.CallAnswers | internal/tracker/tracker.go:149-577 | over every interleaving: NotTracked, AlreadyTracked and NoStdinAttached exactly when the key was absent, present or never attached to at the call's lookup; Cancel, CancelWithReason and Remove call the cancel function found there, once; Add and Remove change exactly their key |
| StdinOutcomes.StdinAnswers | internal/tracker/tracker.go:320-470 | a WriteStdin ends well if and only if it made exactly one write, to the writer attached when it looked under stdin.mu, and otherwise writes nothing; CloseStdin then closed that writer, MarkStdinClosed gave it up; StdinClosed exactly when there was none |
| StdinOutcomes.NoWriterUntilAttach | internal/tracker/tracker.go:366-470 | once a CloseStdin or MarkStdinClosed has ended well its entry has no writer until another is attached |
| StdinOutcomes.LaterCallsAreRefused | internal/tracker/tracker.go:366-470 | and every later WriteStdin or CloseStdin that finds that entry answers StdinClosed and writes nothing |
| StdinGuarantees.RemovedIsReleased | internal/tracker/tracker.go:477-577 | once Remove's close goroutine is done the entry holds neither writer nor onClose, and of all the writers attached to it exactly the last is released: closed or marked closed, never both, its onClose run exactly once |
| StdinGuarantees.NoWriterIsDropped | internal/tracker/tracker.go:289-318 | every SetStdin call that ends has attached its writer or, arriving after Remove, closed it and run its onClose exactly once |
| StdinGuarantees.OnlyAttachedIsLast | internal/tracker/tracker.go:312-315 | the writer of a single attach is the last, so it is the one released |
| StdinGuarantees.HolderCanStep | internal/tracker/tracker.go:211-318 | a holder of tracker.mu is never inside a write, close, cancel or onClose, and can take its next step if and only if it is not about to attach to an entry whose stdin.mu is taken; that lock is free if the entry never had a writer |
| StdinGuarantees.HolderReleases | internal/tracker/tracker.go:211-318 | every step a holder takes brings it closer to releasing, which is at most four steps away |
| StdinGuarantees.SecondAttachWaitsForWrite | internal/tracker/tracker.go:296-318 | a reachable state in which a second attach holds tracker.mu and waits for a hanging Write |
| StdinGuarantees.WaitsForARunner | internal/tracker/tracker.go:64-78 | lock order: a thread waiting for tracker.mu or a stdin.mu is blocked, in at most two hops, by a thread whose next step no lock delays |
| StdinGuarantees.NeverDeadlocked | internal/tracker/tracker.go:64-78 | in every reachable state some thread can take its next step or all have ended |
| StdinProtocol.NamesExist | internal/tracker/tracker.go:205-577 | in reachable states every entry and writer a thread goes on to use exists |
| StdinProtocol.RunKeepsInv | internal/tracker/tracker.go:64-78 | the lock discipline and the ownership of every writer hold in every reachable state |
| Trackers.KeyOfInjective | internal/tracker/tracker.go:143-145 | for validated fields no two cards or chats share a tracker key |
| Trackers.KeyKindsDisjoint | internal/tracker/tracker.go:579-588 | a card key never equals a chat key |
| Trackers.UnvalidatedKeysClash | internal/webhook/validate.go:26 | without the character set keys do clash |
| Trackers.SizeAgrees | internal/tracker/tracker.go:809-812 | len(containers) is the number of tracked cards and chats |
| Trackers.Tracker.Add | internal/tracker/tracker.go:149-161 | adds to a map over cards and chats unless present |
| Trackers.Tracker.AddChat | internal/tracker/tracker.go:592-604 | the same for chats |
| Trackers.Tracker.AddIfUnderLimit | internal/tracker/tracker.go:808-824 | the limit is looked at before the entry; on success exactly one entry is added |
| Trackers.Tracker.AddChatIfUnderLimit | internal/tracker/tracker.go:830-846 | the same, against the same count |
| Trackers.Tracker.Has | internal/tracker/tracker.go:181-188 | true exactly for a tracked card |
| Trackers.Tracker.HasChat | internal/tracker/tracker.go:608-615 | true exactly for a tracked chat |
| Trackers.Tracker.UpdateContainerId | internal/tracker/tracker.go:192-199 | changes the ID of that card only, and adds nothing |
| Trackers.Tracker.RecordReason | internal/tracker/tracker.go:238-260 | records the reason on that card only and reports whether it was tracked |
| Trackers.Tracker.Reason | internal/tracker/tracker.go:262-271 | the recorded reason, empty for an untracked card |
| Trackers.Tracker.Remove | internal/tracker/tracker.go:555-568 | exactly that card leaves the map |
| Trackers.Tracker.RemoveChat | internal/tracker/tracker.go:633-646 | exactly that chat leaves the map |
| Trackers.NeverOverLimit | internal/tracker/tracker.go:803-846 | over every sequence of limited adds, removals and updates, cards and chats together never exceed the limit |
| Trackers.SizeChange | internal/tracker/tracker.go:808-846 | the count moves by one exactly when a free slot is reserved for an untracked container or a tracked one is released |
| Trackers.TrackedExactly | internal/tracker/tracker.go:555-568 | a container is tracked if and only if some request reserved a slot for it that no later one released |
| BroadcastGuarantees.ChannelsAreSafe | internal/logbroadcast/broadcaster.go:350-398 | over all interleavings no send on a closed channel, no channel closed twice, at most 256 entries buffered |
| BroadcastGuarantees.ReceivesWhatWasSent | internal/logbroadcast/broadcaster.go:425-507 | what a subscriber received and still has buffered is, in send order, what distinct publishers passed to Publish: project and session unchanged, content cut to at most 64 KiB, matching its filter |
| BroadcastGuarantees.PassedEntryStays | internal/logbroadcast/broadcaster.go:425-461 | the entry recorded for a publisher is the one it passed, at every later step |
| BroadcastGuarantees.PublishIsConserved | internal/logbroadcast/broadcaster.go:463-485 | when Publish returns, each matching subscriber of its snapshot was either sent the entry or counted as a drop, and sent plus dropped equals matching |
| BroadcastCalls.PublishReaches | internal/logbroadcast/broadcaster.go:425-507 | a subscriber subscribed before Publish was called and registered still when it returns, on an open broadcaster, was sent the entry or counted as a drop, exactly one of the two, if the filter given to Subscribe lets the entry through, and neither if not |
| BroadcastCalls.DroppedOnlyIfFullOrClosed | internal/logbroadcast/broadcaster.go:487-507 | an entry is dropped for a subscriber only if its channel was closed, or held 256 entries, at some moment of the call |
| BroadcastCalls.PublishSpares | internal/logbroadcast/broadcaster.go:463-485 | one not registered at any moment of the call has neither |
| BroadcastCalls.ShutPublishesNothing | internal/logbroadcast/broadcaster.go:425-437 | a Publish called after Close reaches nobody and drops nothing |
| BroadcastCalls.SubscribeAnswers | internal/logbroadcast/broadcaster.go:350-382 | Subscribe registers with the filter it was given, or after Close hands out a channel closed once |
| BroadcastCalls.UnsubscribeAnswers | internal/logbroadcast/broadcaster.go:380-399 | after unsubscribe the subscriber is out for good, and its channel closed once when the first to unsubscribe has returned |
| BroadcastGuarantees.DropsAreConserved | internal/logbroadcast/broadcaster.go:310-319 | drops reported, pending and about to be counted add up to all failed sends |
| BroadcastGuarantees.OnlyCloseMuDelays | internal/logbroadcast/broadcaster.go:400-424 | no publisher or unsubscriber ever waits for a receiver: a thread that cannot step waits for a closeMu whose holder can |
| BroadcastGuarantees.SentInPublishOrder | internal/logbroadcast/broadcaster.go:425-507 | entries published one after the other reach every subscriber in that order |
| Truncation.TruncateContent | internal/logbroadcast/broadcaster.go:443-461 | up to 64 KiB unchanged; beyond, cut at the last rune start up to the head, and the marker appended |
| Truncation.TruncationIsValid | internal/logbroadcast/broadcaster.go:443-461 | valid UTF-8 (section 4 of RFC 3629) stays valid, at most three bytes are given up, no longer prefix that fits is valid |
| Truncation.CutIsValidExactly | internal/logbroadcast/broadcaster.go:450-454 | a cut of valid UTF-8 is valid if and only if it is before a rune start |
| CardRuns.CardRun.Run | internal/container/manager.go:586-634 | for every order of exit, cancel, deadline, Docker error and idle kill, and every answer of Docker at the start: the outcome returned is success exactly for exit code 0, idle timeout or kill by whether the idle reason was recorded, timeout only after the deadline without a cancel; the actions in order, image check, creation, attach, ID, kill, one report, one removal from the tracker, container removal; "completed" only after an exit with code 0 |
| CardRuns.CardRun.StartContainer | internal/container/manager.go:675-885 | an ID exactly if the image is allowed and every step succeeds; only an allowed image is created; a container that fails to start or attach is removed before the error returns |
| CardRuns.CardRun.WaitAndCleanup | internal/container/manager.go:1159-1246 | whatever the wait ends with, the entry is dropped and then the container removed |
| CardRuns.CardRun.HandleWaitErr | internal/container/manager.go:1213-1238 | a ready error channel is a timeout only with the deadline passed and no cancel, a kill only with a cancel, otherwise Docker's own error; a deadline that has passed without a cancel is a timeout |
| CardRuns.CardRun.HandleCanceled | internal/container/manager.go:1297-1328 | idle timeout if and only if the idle reason was recorded by then, else killed; kill attempted, then one failure report |
| CardRuns.CardRun.Select | internal/container/manager.go:1187-1243 | a select case is taken only when its channel is ready |
| CardRuns.RunIsSettled | internal/container/manager.go:586-634 | every ending of a run meets all of its obligations |
| CardRuns.ErrChSays | internal/container/manager.go:1213-1238 | what the two context readings, taken one after the other, imply about the events so far |
| OrphanSweep.SweepHarmsNobody | internal/container/manager.go:2076-2173 | over every interleaving of triggers, runs and non-atomic sweeps, no sweep stops or removes a container whose run has not begun its own cleanup |
| OrphanSweep.LiveContainerIsNotSwept | internal/container/manager.go:2089-2111 | such a container is never even taken for an orphan |
| OrphanSweep.UntrackIsOwn | internal/container/manager.go:1176 | the entry a run removes by key is the one added for it |
| OrphanSweep.SweepMissesNothing | internal/container/manager.go:2076-2173 | a finished sweep listed what existed at its listing, found each container in the tracker at its check or called Stop and Remove for it |
| OrphanSweep.LeftoverIsSwept | internal/container/manager.go:2089-2173 | a listed container whose card and chat are tracked at no time from the listing on is stopped and removed; one tracked all the time is not |
| OrphanSweep.CheckedBefore | internal/container/manager.go:2089-2111 | what a sweep skips had its key or session in the tracker when it was checked, what it takes for an orphan had neither |
| OrphanSweep.TraceKeepsInv | internal/webhook/handler.go:266-316 | reserve-before-create: from before its container exists until its own Remove a run's entry is in the tracker |
| ChatGuarantees.RemovedAtMostOnce | internal/container/manager.go:1015-1121 | no resume directory is removed twice, over any number of interleaved chat starts |
| ChatGuarantees.NothingIsLeft | internal/container/manager.go:2667-2840 | once the handler has returned and its wait goroutine is done, the directory was removed exactly once and neither map holds the container |
| ChatGuarantees.MountedDirStays | internal/container/manager.go:2667-2840 | from the container's start a mounted directory is there until the rollback has made both calls of Manager.Stop or the wait goroutine has tried to remove the container |
| ChatGuarantees.RunsOnlyIfNothingWorked | internal/container/manager.go:2783-2828 | a container runs only if none of the stops, removals and waits made on its behalf has succeeded |
| ChatGuarantees.RemovedUnderContainerExactly | internal/webhook/chat.go:134-209 | a mounted directory is removed under a container that may still run if and only if every call made failed: stop and forced removal on the rollback of an untracked chat; after the wait, the wait, any kill at the deadline, the removal, and stop and forced removal if the attach was rolled back |
| ChatGuarantees.RollbackRemovesUnderContainer | internal/webhook/chat.go:134-167 | a run in which the rollback removes the directory under a running container |
| ChatGuarantees.WaitRemovesUnderContainer | internal/container/manager.go:2783-2828 | a run in which the wait goroutine does, after a failed attach, a deadline and a failed kill |
| ChatGuarantees.FailedStopIsNotEnough | internal/container/manager.go:3019-3039 | a run in which Manager.Stop reports an error and the container is gone all the same |
| ChatGuarantees.WaiterFindsDelivery | internal/webhook/chat.go:163-209 | no rollback takes the delivery from under the wait goroutine |
| ChatGuarantees.WaiterTries | internal/container/manager.go:2797-2828 | the wait goroutine comes to the directory only with the outcome of the wait and after trying to remove the container |
| ChatGuarantees.DeadlineIsKilled | internal/container/manager.go:2797-2813 | after a wait that failed at the deadline it first tries to stop the container, after any other failure it does not |
| ChatGuarantees.RefusedIsRolledBack | internal/webhook/chat.go:125-180 | a chat the tracker refuses gets no wait goroutine, and the handler returns only after both calls of Manager.Stop and with the directory removed |
| ChatGuarantees.TrackedIsWaitedFor | internal/webhook/chat.go:175-181 | one it accepts gets a wait goroutine |
| ChatGuarantees.UnattachedIsStopped | internal/webhook/chat.go:183-221 | if stdin cannot be attached the handler returns only after both calls of Manager.Stop |
| ChatGuarantees.PreparationIsNotFatal | internal/container/manager.go:1015-1121 | a failed preparation of the directory goes on to create the container |
| ChatGuarantees.StreamFindsSecrets | internal/container/manager.go:2703-2711 | the log stream finds the stashed secrets unless the wait goroutine is done |
| ReplayCaches.ReplayCache.Seen | internal/webhook/replay_cache.go:105-151 | the list operation and answer of one call, index and list in step |
| ReplayCaches.ReplayCache.SweepExpired | internal/webhook/replay_cache.go:163-187 | the early-return loop pops the expired front |
| ReplayCaches.ReplayExact | internal/webhook/replay_cache.go:105-187 | a recorded signature is answered "replay" if and only if its TTL has not run out, fewer than capacity others were recorded and no sweep reached it |
| ReplayCaches.BoundaryDependsOnSweep | internal/webhook/replay_cache.go:117-180 | at age exactly ttl a signature is a replay, unless a sweep came just before |
| ReplayCaches.SeenWithinTtl | internal/webhook/replay_cache.go:105-187 | within less than the TTL it is, every time, unless capacity others were recorded |
| ReplayCaches.SweepIsComplete | internal/webhook/replay_cache.go:163-187 | after a sweep exactly the entries newer than now - ttl remain |
| ReplayCaches.AlwaysSorted | internal/webhook/replay_cache.go:133-187 | under a non-decreasing clock the list is sorted by time at every call |
| ReplayCaches.RefinesTable | internal/webhook/replay_cache.go:105-187 | every run of the cache is a run of the timestamped map: same answers, each step the map's step |
| CacheHistory.FoundShape | internal/webhook/replay_cache.go:133-149 | over every run keys stay distinct and the capacity is kept |
| CacheHistory.RetainedSince | internal/webhook/message_dedup_cache.go:195-273 | exact retention: an entry not touched since is found if and only if no capacity rivals gathered and no sweep reached it |
| RecencyList.Evict | internal/webhook/replay_cache.go:140-148 | the eviction loop keeps the newest entries and the index in step |
| RecencyList.PopExpired | internal/webhook/message_dedup_cache.go:258-272 | the sweep loop pops exactly the prefix not newer than the cutoff |
| RecencyList.FreshIsComplete | internal/webhook/replay_cache.go:163-187 | on a sorted list that prefix is everything expired |
| RecencyList.PushIsMapUpdate | internal/webhook/message_dedup_cache.go:195-238 | one push on a sorted list, by key: the new entry and, over capacity, one oldest entry gone |
| TimestampedMaps.ApplyIsTableStep | internal/webhook/message_dedup_cache.go:145-273 | each list operation, on the table it stands for: keep; put, then drop one oldest entry if over capacity; delete; keep exactly what is newer than the cutoff |
| MessageDedup.DedupKeyInjective | internal/webhook/message_dedup_cache.go:107-121 | for validated fields no two messages share a key, card or chat |
| MessageDedup.DedupCache.GetByKey | internal/webhook/message_dedup_cache.go:145-172 | answers an unexpired ack and drops an expired one |
| MessageDedup.DedupCache.PutByKey | internal/webhook/message_dedup_cache.go:195-238 | stores or replaces, moves to the back, evicts the oldest |
| MessageDedup.DedupCache.SweepExpired | internal/webhook/message_dedup_cache.go:249-273 | pops the expired front |
| MessageHandling.Handler.HandleMessage | internal/webhook/handler.go:558-776 | a success is answered exactly if the request is valid and an unexpired ack was cached or the frame was written now; the frame is written exactly if no ack was cached, the target is tracked, the frame builds and the write works; the ack is repeated or stored; every other case has its own status: 404, 409, 410, 500 or the refusal's |
| MessageHandling.AcksComeFromWrites | internal/webhook/handler.go:680-765 | every stored ack is that of a request whose write succeeded |
| MessageHandling.CachedAnswerIsOwnAck | internal/webhook/handler.go:680-700 | an answer from the cache is byte for byte the ack of an earlier written request for the same target and id |
| MessageHandling.RetryExact | internal/webhook/handler.go:593-768 | a retry is answered from the cache if and only if the ack is neither expired nor evicted nor swept |
| MessageHandling.RetryIsNotWritten | internal/webhook/handler.go:593-768 | within the TTL a written message is not written again and every retry gets the same bytes, unless capacity others were stored |
| MessageHandling.WrittenIsNotRewritten | internal/webhook/handler.go:593-768 | from the write on: every retry looked up within less than the TTL of the store of the ack gets the same bytes and is not written, unless capacity other acks were stored |
| MessageHandling.SweepIsComplete | internal/webhook/message_dedup_cache.go:249-273 | on every run a sweep leaves exactly the acks newer than now - ttl |
| MessageHandling.RefinesTable | internal/webhook/message_dedup_cache.go:145-273 | every run of lookups, stores and sweeps is a run of the timestamped map: same answers, each step the map's step |
| DnsCaches.DnsCache.Lookup | internal/container/dns_cache.go:73-101 | answers exactly an unexpired entry of the host and moves it to the back; otherwise the host is out |
| DnsCaches.DnsCache.Store | internal/container/dns_cache.go:103-140 | replaces in place or adds and evicts |
| DnsCaches.LookupExact | internal/container/dns_cache.go:73-140 | a lookup answers with the host's entry if and only if it has not expired and capacity other hosts have not become more recent |
| DnsCaches.RecentHostHits | internal/container/dns_cache.go:73-140 | LRU: with fewer than capacity distinct other hosts used since its last use, the host's last store is answered |
| DnsCaches.StoredHostHits | internal/container/dns_cache.go:73-140 | a store is answered until its TTL has run out, with fewer than capacity other hosts used since |
| DnsCaches.HitIsLastPut | internal/container/dns_cache.go:73-101 | a hit is always the host's own last store, within its TTL |
| BoundedLines.ReadBoundedLine | internal/logparser/boundedline.go:30-67 | however the reader chunks, one call consumes one line, returns its first maxBytes bytes and flags it iff longer |
| BoundedLines.ProcessStream | internal/logparser/parser.go:523-569 | the loop's events are those of the newline split of the stream, in order, unterminated last line included |
| BoundedLines.LinesRebuildStream | internal/logparser/boundedline.go:30-67 | the split cuts at every newline and loses nothing |
| BoundedLines.SplitOfJoin | internal/logparser/boundedline.go:30-67 | and is the only such split |
| BoundedLines.EventsAccountForLines | internal/logparser/parser.go:526-547 | one oversize notice per over-long line; the other non-empty lines are handed on once each, in order |
| BoundedLines.TrimRightExactly | internal/logparser/parser.go:545 | what is cut off a line is its longest tail of line ends |
| Redaction.LiteralPassIsClean | internal/logparser/parser.go:174-182 | after the literal pass a secret that cannot overlap the mark occurs nowhere, whatever the other secrets are and whatever later replacements join |
| Redaction.PassHidesOnlyItsSecret | internal/logparser/parser.go:174-182 | a literal pass replaces occurrences of its secret and nothing else |
| Redaction.SecretBecomesMark | internal/logparser/parser.go:174-182 | and puts "[REDACTED]" in their place |
| Redaction.TextWithoutSecretsStays | internal/logparser/parser.go:174-182 | a text without secrets comes through unchanged |
| Redaction.CleanExactlyWithout | internal/logparser/parser.go:174-182 | for bracketless secrets of kept length this holds on every input if and only if "REDACTED" is not one of them |
| Redaction.BracketedSecretSurvives | internal/logparser/parser.go:179-181 | a secret overlapping the mark can survive its own masking |
| OneSecret.MaskedExactly | internal/logparser/parser.go:179-181 | one secret, brackets or not: masking leaves no occurrence on any input if and only if the mark can neither start nor continue it |
| OneSecret.MarkFreeIsEnough | internal/logparser/parser.go:179-181 | masking anything never forms a secret that cannot overlap the mark |
| OneSecret.MarkFreeIsNotNeeded | internal/logparser/parser.go:179-181 | a secret that overlaps the mark and is masked on every input all the same |
| SeveralSecrets.NotFormedIsNotLeft | internal/logparser/parser.go:174-182 | in any list, brackets or not, a secret that neither its own pass nor a later one can form is left nowhere |
| SeveralSecrets.PairMaskedExactly | internal/logparser/parser.go:164-182 | a secret with brackets and a token no longer than it: it is left on some input if and only if one of the two passes can form it and it does not hold the token |
| Redaction.MaskingAddsNothing | internal/logparser/parser.go:105-115 | turning spans into marks creates no occurrence of such a secret |
| Redaction.StaysClean | internal/logparser/parser.go:105-115 | pattern passes keep a clean text clean |
| Redactors.SortLongestFirst | internal/logparser/parser.go:164-170 | the in-place insertion sort computes the stable longest-first order |
| Redactors.LongestFirstIsPermutation | internal/logparser/parser.go:164-170 | which is a permutation |
| Redactors.LongestFirstIsSorted | internal/logparser/parser.go:164-170 | non-increasing in length and stable |
| Redactors.KeptSecretsFacts | internal/logparser/parser.go:136-155 | the kept secrets are duplicate-free and exactly the inputs of at least 8 bytes |
| Redactors.NewRedactor | internal/logparser/parser.go:136-162 | builds the kept secrets in that order |
| Redactors.Redactor.RedactLiterals | internal/logparser/parser.go:174-181 | the loop over the kept secrets is the literal pass |
| Redactors.RedactorIsClean | internal/logparser/parser.go:105-184 | from configured values to final text, through the literal and all pattern passes: a value of at least 8 bytes that cannot overlap the mark is not left, whatever the others are |
| Redactors.TokensAreMasked | internal/logparser/parser.go:105-184 | the same for values without brackets other than "REDACTED" |
| SecretsFile.RenderSecretsFile | internal/container/secrets_refresher.go:192-235 | each error exactly when it applies; otherwise the rendering of static plus CM_GIT_TOKEN, sorted by key |
| SecretsFile.LineLooksLike | internal/container/secrets_refresher.go:188-233 | one rendered line, byte for byte |
| SecretsFile.ReadBack | internal/container/secrets_refresher.go:188-190 | the quoting rules of a POSIX shell give back exactly the bindings rendered, whatever the values, if the names are shell names |
| SecretsFile.ReadsBackExactly | internal/container/secrets_refresher.go:192-235 | the file reads back as its map if and only if all keys are shell names, and then holds one assignment a key |
| SecretsFile.SameBytesSameMap | internal/container/secrets_refresher.go:158-167 | with shell names for keys, equal bytes if and only if equal maps |
| SecretsFile.UnnamedKeysClash | internal/container/secrets_refresher.go:192-235 | without that two different maps can render to equal bytes |
| SecretsFile.AuthEnvIsNamed | internal/container/manager.go:379-396 | every key of the environment the runner delivers is a shell name, and its static part never holds CM_GIT_TOKEN |
| SecretsFile.AuthEnvExactly | internal/container/manager.go:379-396 | the token always; no Claude credential next to a mounted directory, else the OAuth token if set, else the API key if set; nothing more |
| SecretsFile.AuthFileReadsBack | internal/container/manager.go:379-396 | the runner's own file reads back as its environment, one assignment a key, unconditionally |
| SecretsFile.SameAuthFile | internal/container/manager.go:379-396 | two of the runner's files are equal if and only if token and Claude credential are |
| SecretsWrite.FileSystem.WriteSecretsFileAtomic | internal/container/secrets_refresher.go:238-285 | succeeds exactly if open, chmod, write, sync, close and rename do; whatever temporary file was left before, a failed write changes neither what the path holds nor what a crash at any step may leave there, and leaves no temporary file if that can be removed; a successful one adds only the complete new body, at its last step |
| SecretsWrite.SafeMeans | internal/container/secrets_refresher.go:238-285 | in a safe state of the disk a reader, and whoever looks after a crash, finds one of the allowed contents |
| SecretsWrite.RebootedIsAny | internal/container/secrets_refresher.go:238-285 | the crashes played through are all there are: any earlier directory, synced files intact, any content in the others |
| SecretsWrite.RenameIsSafe | internal/container/secrets_refresher.go:238-285 | renaming a synced temporary file keeps the disk safe and brings in its content |
| SecretsWrite.UnsyncedRenameTears | internal/container/secrets_refresher.go:268-282 | without the sync a crash after the rename may leave any content at the path |
| SecretsWrite.RecoversInFull | internal/container/secrets_refresher.go:238-285 | in any safe state, which all states of a write or cycle are, and after a crash in it, a shell reads one of the rendered maps in full, keys being shell names |
| SecretsWrite.RecoversOldOrNewMap | internal/container/secrets_refresher.go:238-285 | with a file there before and shell-name keys, that is the old map or the new one |
| SecretsWrite.TokenRefresher.DoOneRefresh | internal/container/secrets_refresher.go:144-175 | one mint-and-rewrite cycle: each error in its own case, leaving the path's content alone; unchanged bytes are not rewritten; if the old file could be read, a change is reported if and only if the environment to deliver is not the one the file stands for, for the runner's own refresher and file without a condition on keys |
| SecretsWrite.ChangeIsExact | internal/container/secrets_refresher.go:158-167 | the byte comparison sees a change if and only if the maps differ, keys being shell names |
| SecretsWrite.AuthChangeIsExact | internal/container/secrets_refresher.go:158-167 | for the runner's files it sees a change if and only if token or Claude credential differ |
| SecretsWrite.RefreshThroughCrashes | internal/container/manager.go:410-448 | over any number of cycles under any configurations, each cut short by a crash anywhere or not, a shell reads at every state one of the environments there were before or one of those minted, in full |
| RefreshSchedule.Run | internal/container/secrets_refresher.go:304-420 | every wait of the loop is the one its history calls for: min(2^(k-1), 300) s after the k-th failure in a row, the clamp backoff after a clamped refresh, else the time to expiry less the buffer |
| RefreshSchedule.NthFailureWaits | internal/container/secrets_refresher.go:304-420 | the n-th failure in a row waits min(2^(n-1), 300) s |
| RefreshSchedule.ClampedRefreshWaits | internal/container/secrets_refresher.go:304-443 | the n-th clamped refresh since the last that was not, failures aside, waits a second up to n = 3, then min(2^(n-4), 30) s |
| RefreshSchedule.ClampBackoffClosedForm | internal/container/secrets_refresher.go:423-443 | the n-th clamped refresh of a streak, n > 3, waits min(2^(n-4), 30) s, for every streak and without overflow |
| RefreshSchedule.NextWakeExactly | internal/container/secrets_refresher.go:291-302 | for every expiry, saturation and wrap-around included: ten minutes before it, at least a second away |
| RefreshSchedule.PatModeWakesHourly | internal/container/secrets_refresher.go:291-296 | without expiry the next refresh is an hour away and never flagged |
| RefreshSchedule.ClampedExactly | internal/container/secrets_refresher.go:291-302 | the clamp flag is right if and only if the subtraction does not wrap |
| RefreshSchedule.FarPastExpirySleeps | internal/container/secrets_refresher.go:291-302 | a concrete expiry 292 years past, not flagged and slept on for 292 years |
| RefreshSchedule.WaitsAtLeastOneSecond | internal/container/secrets_refresher.go:304-420 | no wait is shorter than a second |
| RefreshSchedule.AtMostOneMoreThanSeconds | internal/container/secrets_refresher.go:304-420 | at most w + 1 mint attempts in any w seconds |

## Left out

- Docker, HTTP, SSE, DNS lookups, git, GitHub token minting, metrics, tracing and logging: their results
  are arbitrary choices of a step or arguments of a call.
- Configuration ranges, validators other than the identifier character set, preflight and health checks:
  long but shallow.
- HMAC signatures and wire structs: contextmatrix-protocol is not part of this model.
- List elements: entries are values in a sequence and in the index, not shared pointers, so aliasing between
  list and map is not modelled; that the two hold the same entries is an invariant.
- Stdin, broadcast, sweep and resume protocols: threads, locks and channels are values of a state rather
  than objects, so that all interleavings can be quantified over; data races inside a step are not modelled.
- Fairness and Go's preference for waiting writers in RWMutex: progress is stated as "this thread's next
  step is enabled".
- Nil writers, nil onClose and cancel functions, and a nil dedup cache or tracker.
- BroadcastGuarantees.DropsAreConserved: dropCount is unbounded, not an unsigned 64-bit counter.
- CardRuns.CardRun.Run: panic recovery (a second Remove by key, manager.go:562), the asynchronous
  "running" callback and priming writes are not modelled.
- OrphanSweep.SweepHarmsNobody: card mode only; a chat container is created before it is tracked, so the
  claim does not hold of chats, and ForceRemoveByLabels removes containers on an operator's request.
- ChatGuarantees.NothingIsLeft: without panics and without the age-based janitor; a directory is identified with
  the start that made it, which takes the random nonces to be distinct.
- Chat tracker entries in the resume protocol (RemoveChat by the failed attach and by the wait goroutine): the
  entries are the tracker's, whose calls are modelled by themselves.
- ChatGuarantees.RemovedUnderContainerExactly: a container counts as ended once a stop, wait or removal of it
  succeeded; the error of a call that did end it may come first, which the container's own end, possible at any
  step, covers.
- MessageHandling.RetryIsNotWritten: sequential requests; two concurrent deliveries of one message can both
  be written, because lookup and store are separate steps.
- Redaction.StaysClean: the regular expressions are arbitrary maskings of disjoint spans; the environment
  patterns, which keep a key and an equals sign in front of the mark, are taken as masking the value only.
- Disk failures other than a crash: an operation on the directory is never half done, and a crash brings back
  some directory there has been with synced files intact and the others with any content.
- SeveralSecrets.PairMaskedExactly: the exact condition is proved for one secret, for a secret before a token no
  longer than it, and for any secrets without brackets; for other lists with brackets the sufficient one is.
- SecretsFile.ReadBack: reads a NUL byte like any other, which a shell does not; the renderer refuses it.
- Goroutine, timer and watchdog bookkeeping (stdinCloseTimeout, wg, log draining): they only log.
