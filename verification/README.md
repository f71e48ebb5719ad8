# ICSD Panel v2: a verified model of its state machines and protocols

ICSD Panel is a Python hub that watches and manages servers through Go agents. This project models the
parts of it whose guarantees span several functions or a whole run, and proves those guarantees for all
inputs, all interleavings and all reachable states:

- **Alerts** (`Alerts.dfy`, `AlertOutcomes.dfy`, `AlertEngine.dfy`): the memory of the alert engine beside its
  `events` table, with restarts, rule edits, deletions and pruning; the engine itself as a class changed in place.
- **Uploads and copies** (`Upload.dfy`, `UploadHistory.dfy`, `UploadProgress.dfy`, `Copy.dfy`): the chunked upload
  protocol under any interleaving and any failure, and its three clients.
- **Backups** (`Retention.dfy`, `Backup.dfy`, `Schedule.dfy`, `Timer.dfy`, `Scheduler.dfy`): pruning by name, the run
  that copies, prunes and deletes, the schedule arithmetic and the scheduler.
- **The agent's link** (`Link.dfy`, `Rpc.dfy`, `HubCalls.dfy`): the bounded sample buffer with its wake
  channel, and the matching of requests and answers.
- **Minute rollup** (`Rollup.dfy`): accumulation, flushing, merging and rounding.
- **Parsers and arithmetic** (`Nginx.dfy`, `Demux.dfy`, `Jalali.dfy`): the site scanner, the Docker log
  demultiplexer, the calendar conversion.
- **Accounts** (`Totp.dfy`, `LoginLimit.dfy`, `Auth.dfy`): one-time codes, the attempt window, accounts and
  sessions.

`Common.dfy` holds the few definitions that several modules share.

Conventions. Tables are maps or sequences, time is an integer (or a `real` where the source subtracts
floats), floating point is `real` with rounding as any function within half a unit, hashes are arbitrary
functions. Hub code between two awaits is one step; the agent's goroutines interleave at lock, channel and
file operations. Protocols are state machines with a `Run` over any list of actions; an invariant `Inv` is
shown to hold after every action, and the main results follow from it. Objects the source changes in place
are classes. Where they take part in such a machine (`AlertEngine.Engine`, `Rollup.Live`, `Link.Agent`,
`HubCalls.Live`, `Totp.Factors`, `LoginLimit.Failures`) each method is proved equal to its action or actions,
so that the results about every run hold of the object. `Copy.Server` handles one request at a time; what its
clients send is joined to the interleaved upload protocol by `Copy.CopiedAmongOthers`.

Where the code and its own words differ, the model follows the code:

- `next_run` says "the first time >= after"; the loop is strict, so at a point of the schedule the answer
  is one whole period later (`Schedule.NextGap`).
- `next_run` says "start_hour + k * every_hours", but counts from the last start hour before `after`. Runs
  keep the period asked for if and only if it divides 24 hours or is a whole number of days
  (`Schedule.KeepsIntervalIff`); a plan for every 36 hours, which the form accepts, runs every 24
  (`Schedule.ThirtySixIsADay`).
- `backupPrune` says that the timestamp sorts chronologically. The stamp is local time, and the newest *name*
  survives: after an agent's clock was set back, or its local time went back at the end of daylight saving, a
  run can prune away the backup just made. `Backup.CopySurvivesIff` says exactly when no run does,
  `Backup.ClockBackLosesBackup` gives a case, and `Backup.LatestIsSafe` shows that local times that move
  forward from one backup to the next are enough.
- A plan's next time is computed from the clock at the moment of an edit. Starts of a plan stay in order,
  whatever the clock does, if and only if no edit makes it due at or before a start it already made
  (`Timer.AlwaysOnceIff`); a clock that never goes back is enough (`Timer.ForwardFits`).

## Model

| member | source | states |
|---|---|---|
| Alerts.StepKeeps | hub/icsd_hub/alerts.py:108-136 | A judgement of any key, with any clock, keeps memory and table one to one, open and resolve marks alternating, and every open justified by its streak. |
| Alerts.ForgetServerKeeps | hub/icsd_hub/alerts.py:151-155 | Deleting a server keeps the same invariant. |
| Alerts.RestartKeeps | hub/icsd_hub/alerts.py:55-63 | Rebuilding memory from the open rows keeps the invariant: nothing is reopened or lost by a restart. |
| Alerts.SetRuleKeeps | hub/icsd_hub/alerts.py:79-86 | Editing, disabling or enabling a rule keeps the invariant. |
| Alerts.PruneKeeps | hub/icsd_hub/metrics.py:77 | Deleting old closed events never removes a row that memory points to. |
| Alerts.RunKeeps | hub/icsd_hub/alerts.py:55-155 | The invariant holds after every run of judgements, deletions, edits, pruning and restarts. |
| Alerts.OneOpenEventPerKey | hub/icsd_hub/alerts.py:119-124 | In every reachable state two open rows of the same key are the same row. |
| Alerts.MemoryMatchesTable | hub/icsd_hub/alerts.py:55-63 | A key has a tracked event if and only if it has an open row, and the tracked id is that row's. |
| Alerts.NotifiedOnce | hub/icsd_hub/alerts.py:108-136 | Between two alert messages of a key there is a resolve, a quiet close or the deletion of its server. |
| Alerts.ResolvedOnce | hub/icsd_hub/alerts.py:128-136 | Every resolve answers an earlier alert of the key that nothing closed in between. |
| Alerts.OpenedAfterStreak | hub/icsd_hub/alerts.py:115-119 | An alert is preceded by at least `for_s` seconds of nothing but bad judgements, unbroken by a restart or a deletion. |
| AlertOutcomes.OpensExactlyWhenDue | hub/icsd_hub/alerts.py:108-127 | After any run, a bad judgement under an enabled rule: an outstanding alert stays with its row; otherwise one opens, with one message, exactly if the streak read off the log has lasted `for_s`, and its row says the key, this value and the start of the streak. |
| AlertOutcomes.ClosesAtOnce | hub/icsd_hub/alerts.py:128-136 | A good judgement, or any under a rule that is missing or off, forgets the key; an outstanding alert has its row ended now and is resolved, or silenced if quiet; otherwise nothing else happens. |
| AlertOutcomes.RowsOnlyEnd | hub/icsd_hub/alerts.py:119-130 | A row never changes but to end, once; exactly old ended rows are deleted. |
| AlertOutcomes.RestartReloads | hub/icsd_hub/alerts.py:55-63 | A restart loads exactly the open rows as they stand and adds the default rules that are missing. |
| AlertEngine.Engine.NewEventId | hub/icsd_hub/alerts.py:120-123 | A new event gets an id that no row has: one more than the largest. |
| AlertEngine.Engine.Judge | hub/icsd_hub/alerts.py:108-136 | `step` on the dictionaries and rows in place is the abstract step, and keeps the invariant. |
| AlertEngine.Engine.Settle | hub/icsd_hub/alerts.py:139-142 | Exactly the unseen keys of the given kinds and server go; all others keep their track unchanged. |
| AlertEngine.Engine.ForgetSubject | hub/icsd_hub/alerts.py:145-148 | Every key of that kind and subject goes, quietly; all others are unchanged. |
| AlertEngine.Engine.ForgetServer | hub/icsd_hub/alerts.py:151-155 | The in-place deletion is the abstract one. |
| AlertEngine.Engine.Seed | hub/icsd_hub/alerts.py:55-63 | The loading loop, in any row order, gives the abstract restart. |
| AlertEngine.Engine.UpdateRule | hub/icsd_hub/alerts.py:79-86 | Unknown kinds and severities are refused with nothing changed; otherwise the rule is set with its duration clamped. |
| AlertEngine.Engine.PruneEvents | hub/icsd_hub/metrics.py:77 | Exactly the rows that ended before the cutoff go. |
| AlertEngine.LastOfDisks | hub/icsd_hub/alerts.py:196-200 | Of several entries of one mount the last one decides each of its three kinds. |
| AlertEngine.LastOfContainers | hub/icsd_hub/alerts.py:201-208 | Of several entries of one container the last one decides. |
| AlertEngine.LastOfSample | hub/icsd_hub/alerts.py:178-213 | The last verdict of a sample on a covered key is what the sample says of it; kinds not covered get no verdict. |
| AlertEngine.SampleMeans | hub/icsd_hub/alerts.py:178-213 | Which kinds a sample covers and when each is bad, spelled out: thresholds, load per core, and the four ways a container is broken. |
| AlertEngine.LastDiskIs | hub/icsd_hub/alerts.py:196-200 | The entry that decides a mount is the one after which no other has it. |
| AlertEngine.Engine.EvaluateSample | hub/icsd_hub/alerts.py:178-213 | After a sample the tracked keys of the covered kinds are exactly those it makes bad under enabled rules; other servers, uncovered kinds, disks when absent and containers when absent or in error are unchanged. |
| Upload.RunKeeps | agent/internal/actions/fs.go:203-327 | The safety invariant of the protocol holds after every interleaving of clients, handlers, lost or late requests and replies, failures and aborts. |
| Upload.TargetIsAtomic | agent/internal/actions/fs.go:236-285 | At every moment a target holds its original content or the whole data of one upload whose last chunk was sent: never a mix or a prefix. |
| UploadHistory.TargetIsLastRename | agent/internal/actions/fs.go:279-282 | Exactly what a target holds after any run: the whole data of the client whose rename to it was the last, and its original bytes if there was none. |
| UploadHistory.SuccessWasRenamed | agent/internal/actions/fs.go:274-285 | Success has one source: a client told of it, or about to be, did rename its file over its path. |
| UploadHistory.SuccessLeavesItsData | hub/icsd_hub/backups.py:152-183 | A client told of success renamed its file over its path at some point of the run; if nothing was renamed over that path since, whatever uploads went before, the path holds exactly its data. |
| UploadHistory.AloneLeavesItsData | hub/icsd_hub/backups.py:152-183 | In particular when no other client of the path sent its last chunk. |
| UploadHistory.SentIsWhole | hub/icsd_hub/backups.py:166-175 | The data of a client is the concatenation of the chunks it sent. |
| UploadProgress.Proceeds | agent/internal/actions/fs.go:236-285 | In any run with the steps of one chunk in order and without a fault, and any actions of others in between, the chunk gets as far as its steps. |
| UploadProgress.ChunkSucceeds | agent/internal/actions/fs.go:236-285 | From every reachable state, a ready client whose file is still linked sends its next chunk: it becomes ready with the chunk acknowledged and its file linked for the next one, or is told of success. |
| UploadProgress.TargetReplaced | agent/internal/actions/fs.go:279-285 | At the moment of its rename the path holds exactly the whole data, whatever others did before. |
| UploadProgress.FailureCleansUp | agent/internal/actions/fs.go:247-251 | A write or rename that fails removes the temporary file and changes no path. |
| UploadProgress.FailureIsTold | agent/internal/actions/fs.go:247-251 | The answer to a failed chunk stops its client. |
| Copy.Server.FsRead | agent/internal/actions/fs.go:159-193 | A read returns exactly the bytes at the offset, capped, and reports the end exactly when they reach it. |
| Copy.Server.FsWrite | agent/internal/actions/fs.go:219-285 | Each case of a chunk: refused for size, a directory or a changed file with nothing done; failed with its temporary file removed; stored at its offset; or renamed over the target, with the new time. |
| Copy.Server.RefusesIff | agent/internal/actions/fs.go:223-235 | The refusals spelled out: a chunk over a megabyte, a file over the limit outside the backup directory, a directory, or a file that changed. |
| Copy.Server.FsAbort | agent/internal/actions/fs.go:309-327 | Aborting removes that temporary file and no other, and says whether there was one. |
| Copy.SendChunk | hub/icsd_hub/backups.py:166-172 | One sent chunk extends the temporary file from a prefix of the data to the next prefix, or finishes the target. |
| Copy.CopyBetween | hub/icsd_hub/backups.py:152-183 | Offline and directory errors come first and change nothing; success leaves exactly the source bytes, failure leaves the destination as it was or complete, no fault means success. |
| Copy.CopyChunks | hub/icsd_hub/backups.py:163-175 | The loop ends; only the last chunk may be empty, and the chunks sent cut a prefix of the source, all of it on success. |
| Copy.CopiedAmongOthers | hub/icsd_hub/backups.py:152-183 | A client of the interleaved protocol that sent those chunks and was told of success: unless another file was renamed over the path since, it holds exactly the source bytes. |
| Copy.WriteBytes | hub/icsd_hub/manage.py:138-152 | The same for a buffer in memory; an edit of a file that changed since it was opened is not written. |
| Copy.UploadFile | hub/icsd_hub/manage.py:166-192 | The same for a form file read one chunk ahead, with the size it reports. |
| Retention.StampMonotone | agent/internal/actions/db.go:312 | Fixed-width stamps sort as text in the order of time, field by field. |
| Retention.StampLayout | agent/internal/actions/db.go:312 | Where each field and the dash stand in a stamp. |
| Retention.TwoDigits | agent/internal/actions/db.go:312 | A field of two digits is written tens first. |
| Retention.NamesSortByTime | agent/internal/actions/backup.go:185-191 | Names of one prefix sort by time whatever their extensions. |
| Retention.PrefixesDoNotMix | agent/internal/actions/backup.go:187 | With dash-free prefixes, a file matches a prefix if and only if it was made under it. |
| Retention.Insert | agent/internal/actions/backup.go:191 | Insertion keeps the names sorted and adds exactly one. |
| Retention.NewerInSorted | agent/internal/actions/backup.go:191-199 | In the sorted list the i-th name has exactly the later ones above it. |
| Retention.GoneIffOutnumbered | agent/internal/actions/backup.go:193-199 | The names taken off the front are exactly those with at least `keep` newer ones. |
| Retention.Directory.BackupPrune | agent/internal/actions/backup.go:161-201 | The loop refuses `keep < 1` and otherwise removes, of the prefix, exactly the files with `keep` or more newer names, except those that cannot be removed. |
| Backup.RunKeeps | hub/icsd_hub/backups.py:114-149 | The safety invariant of a run holds after every step, failed or late request, foreign prune or crash. |
| Backup.LatestIsSafe | hub/icsd_hub/backups.py:114-141 | When all files of the plan carry earlier stamps, on both servers, no name sorts after the new one: the condition of the next two results holds for every legal plan. |
| Backup.CompleteCopyExists | hub/icsd_hub/backups.py:114-149 | From the end of the job on, at every point of every run (success, error, late request or crash) a complete copy is on the source or on the destination, with `delete_local` too. |
| Backup.DoneMeansCopied | hub/icsd_hub/backups.py:131-141 | Under the same condition on the destination, a run recorded as done has its copy on the destination if it has one, and on the source unless it was to be deleted. |
| Backup.EndsAsDone | hub/icsd_hub/backups.py:131-142 | A run in which every request is carried out and answered is recorded as done, and leaves exactly the pruned source, without the new file if it was to be deleted, and the pruned destination with it: without a destination, with one, and with `delete_local`. |
| Backup.CopySurvivesIff | hub/icsd_hub/backups.py:131-140 | A complete copy survives every run if and only if fewer than `keep` files of the plan are named later on the source and, with `delete_local`, fewer than `dest_keep` on the destination. |
| Backup.ClockBackLosesBackup | hub/icsd_hub/backups.py:131 | With `keep` 1 and one file named later, for any two such times, the new backup is lost. |
| Schedule.NextRun | hub/icsd_hub/backups.py:40-52 | The loop ends, for every input, with the closed form, in whole seconds. |
| Schedule.NextIsLeast | hub/icsd_hub/backups.py:49-51 | The result is strictly later than `after` and no later than any other such point of the anchor's. |
| Schedule.AnchorBounds | hub/icsd_hub/backups.py:44-47 | The anchor is the last start hour at or before `after`: a whole number of days from a fixed origin and less than a day back. |
| Schedule.AnchorIsTheHour | hub/icsd_hub/backups.py:43-47 | At an anchor the clock in Tehran, three and a half hours ahead, shows the start hour exactly. |
| Schedule.NextGap | hub/icsd_hub/backups.py:40-52 | The wait is in (0, step], and a whole step if and only if `after` is itself a point of the schedule. |
| Schedule.NextMonotone | hub/icsd_hub/backups.py:40-52 | A later `after` never gives an earlier run, across days and for every period. |
| Schedule.OneGridIff | hub/icsd_hub/backups.py:40-52 | All results lie on one grid of the period if and only if `every_hours` divides 24. |
| Schedule.LongPeriods | hub/icsd_hub/backups.py:48-51 | With a period of a day or more, the run after a run comes exactly the whole days of the period later. |
| Schedule.KeepsIntervalIff | hub/icsd_hub/backups.py:40-52 | Every run follows the one before by exactly the period if and only if the period divides 24 hours or is whole days. |
| Schedule.ThirtySixIsADay | hub/icsd_hub/backups.py:40-52 | Every 36 hours means every 24. |
| Scheduler.Scheduler.Save | hub/icsd_hub/backups.py:231-258 | Creating or editing a plan computes its next time from now; from then on its starts stay in order, whatever the clock does, if and only if they are so far and all came before that time. |
| Scheduler.Scheduler.Begin | hub/icsd_hub/backups.py:97-109 | A plan already running or missing is refused with nothing changed; otherwise one row and one task appear. |
| Scheduler.Scheduler.Tick | hub/icsd_hub/backups.py:83-94 | Every plan that was enabled, online and due in seconds is running, unless two runs are going on; every plan that was off or not yet due is as it was and not newly running; runs going on are untouched. |
| Scheduler.Scheduler.Restart | hub/icsd_hub/backups.py:77-80 | After a crash and `recover` no row says running and no other row changed. |
| Scheduler.Scheduler.OneRunPerPlan | hub/icsd_hub/backups.py:97-109 | At most one run of a plan is in progress. |
| Scheduler.Scheduler.DueOnce | hub/icsd_hub/backups.py:83-94 | No due time is answered twice, across restarts and reuse of ids, as long as no edit made the plan due at or before a start it already made. |
| Scheduler.Scheduler.DueOnceIff | hub/icsd_hub/backups.py:83-94 | That is the exact condition, for the log of every plan. |
| Timer.OnceIffSure | hub/icsd_hub/backups.py:83-94 | Without edits, starts stay in order for every sequence of clock readings if and only if they are so far and all came before the next due time. |
| Timer.RunSure | hub/icsd_hub/backups.py:83-94 | If every edit fits, nothing can go wrong until the next one, after every run of edits, starts and deletions. |
| Timer.AlwaysOnceIff | hub/icsd_hub/backups.py:83-94 | At every point of a run, whatever the clock does next, starts stay in order, if and only if every edit in it makes the plan due after all its starts. |
| Timer.ForwardFits | hub/icsd_hub/backups.py:247-258 | With no edit at an earlier clock reading than a start before it, every edit fits. |
| Timer.ClockBackAnswersTwice | hub/icsd_hub/backups.py:247-258 | Any plan saved, started when due, and saved again with the clock set back to the first saving answers the same due time twice. |
| Rollup.SamplesConserved | hub/icsd_hub/live.py:168-195 | For any order of samples, any flushes and any rounding, the row's `n` plus the accumulator's share is the number of samples of that minute. |
| Rollup.MinuteIs | hub/icsd_hub/live.py:169 | The minute of a sample is the whole minute its time lies in. |
| Rollup.ExactRow | hub/icsd_hub/live.py:180-195 | Without rounding, a row with `n` samples has the mean and the peak of the first `n` samples of its minute, at any moment; `n` is all of them once the accumulator holds none. |
| Rollup.MergeError | hub/icsd_hub/live.py:187 | One rounded weighted merge adds at most one rounding error to the error already there. |
| Rollup.AverageWithinRounding | hub/icsd_hub/live.py:185-192 | After k writes a stored average is within k roundings of the mean of the samples it has, whatever the batch sizes, at any moment. |
| Rollup.AverageTwoDecimals | hub/icsd_hub/live.py:185-192 | With two decimals: within k * 0.005. |
| Rollup.PeakWithinRounding | hub/icsd_hub/live.py:191-192 | The stored `cpu_max` is within one rounding of the peak of the samples the row has, however many merges. |
| Rollup.PeakIsMaximum | hub/icsd_hub/live.py:176 | For non-negative CPU the peak of the first `n` samples is their maximum: none is above it and one equals it. |
| Rollup.RunKeeps | hub/icsd_hub/live.py:168-195 | Counts, sums within their error and peaks hold after every run. |
| Rollup.RunFirst | hub/icsd_hub/live.py:168-195 | The row has the first samples of its minute and the accumulator the others, after every run. |
| Rollup.RoundedAverages | hub/icsd_hub/live.py:185 | The loop gives each field's rounded average. |
| Rollup.AddUp | hub/icsd_hub/live.py:174-175 | The loop adds a point field by field. |
| Rollup.Live.FlushMinute | hub/icsd_hub/live.py:180-195 | The in-place flush, insert or merge, is the abstract one. |
| Rollup.Live.AddSample | hub/icsd_hub/live.py:168-177 | The in-place accumulation, with its flush at a change of minute, is the abstract one. |
| Jalali.DayNumberCounts | hub/icsd_hub/notify.py:69-72 | The running number grows by one from each Gregorian day to the next, across month ends, leap days and century years. |
| Jalali.FromIsValid | hub/icsd_hub/notify.py:73-81 | Every day number gives a valid date of the 33-year cycle, and the inverse recovers the number. |
| Jalali.Bijection | hub/icsd_hub/notify.py:73-81 | For every valid date, the number gives the date if and only if the date's inverse is the number. |
| Jalali.NextCounts | hub/icsd_hub/notify.py:73-81 | The inverse grows by one from each Jalali date to the next. |
| Jalali.ConvertsConsecutively | hub/icsd_hub/notify.py:69-81 | The day after a Gregorian date converts to the day after its conversion. |
| Jalali.Nowruz1405 | hub/icsd_hub/notify.py:69-81 | 21 March 2026 is 1405/1/1. |
| Jalali.CountedFromNowruz | hub/icsd_hub/notify.py:69-81 | From then on, the conversion is plain counting in both calendars. |
| Link.RunKeeps | agent/internal/link/link.go:129-221 | The queue, batch, order and wake invariants hold after every interleaving of pushes and the session. |
| Link.QueueIsSuffix | agent/internal/link/link.go:129-157 | The queue is always the newest part of everything pushed, with at most 120 entries. |
| Link.RequeuedAllUnsent | agent/internal/link/link.go:196-204 | After a failed send the queue is exactly the newest min(120, unsent) samples in order. |
| Link.NoLostWakeup | agent/internal/link/link.go:129-140 | When the session waits with samples queued, the channel holds a token or a pusher is about to put one. |
| Link.SentInOrder | agent/internal/link/link.go:196-204 | Sends that succeeded were in the order pushed and of different samples. |
| Link.NoGapInBriefOutage | agent/internal/link/link.go:129-157 | The next sample sent is the first unsent one unless more than 120 were waiting. |
| Link.Agent.PushLocked | agent/internal/link/link.go:130-135 | The part under the lock is the push action; the queue is the newest part of everything pushed, at most 120. |
| Link.Agent.SignalWake | agent/internal/link/link.go:136-139 | The non-blocking send is the signal action; afterwards a token is there. |
| Link.Agent.TakeAll | agent/internal/link/link.go:142-148 | The session gets the newest min(120, unsent) samples in order. |
| Link.Agent.PutBack | agent/internal/link/link.go:150-157 | After the rest is put back the queue is the newest min(120, unsent) samples in order. |
| Link.Agent.SendQueued | agent/internal/link/link.go:196-204 | One turn of the session with any steps of the sampler in between: on success all pushed before it are sent and a token, there or about to be put, covers what came since; on failure the queue is the newest of everything unsent. |
| Link.Agent.Await | agent/internal/link/link.go:205-219 | The select takes a token, a ping or the end, and leaves the queue alone. |
| Rpc.RunKeeps | hub/icsd_hub/rpc.py:22-47 | The matching invariant holds after every interleaving of calls, agent, network, sockets and time-outs. |
| Rpc.BreakAllKeeps | hub/icsd_hub/agents.py:193-198 | Breaking the pending futures one by one and then clearing the map keeps it. |
| Rpc.AnswerIsItsOwn | hub/icsd_hub/agents.py:178-181 | A call returns only what a message with its own id said; from an honest agent that is the answer to that very request. |
| Rpc.OncePerCall | hub/icsd_hub/rpc.py:30-47 | No future is completed twice; a call has ended if and only if its end was recorded exactly once. |
| Rpc.PendingIsUnfinished | hub/icsd_hub/rpc.py:31-44 | `pending` holds every unfinished call whose future is open, and beside them only calls that timed out and are about to end. |
| Rpc.AtMostEightHandlers | agent/internal/link/link.go:255-264 | The agent never runs more than 8 handlers. |
| Rpc.FreeSlotIsUsed | agent/internal/link/link.go:255-264 | With fewer than 8 handlers running a request is handled; otherwise it is answered at once that the agent is busy. |
| Rpc.CallCompletes | hub/icsd_hub/rpc.py:22-47 | From every reachable state with a socket and a free slot, a new call that meets no fault returns what the agent answered. |
| HubCalls.Live.Begin | hub/icsd_hub/rpc.py:22-31 | Without a socket, and for a server that is only monitored, the call ends in an error; otherwise it is pending and sending. |
| HubCalls.Live.SendReturned | hub/icsd_hub/rpc.py:35-39 | A failed send ends the call and takes it out of `pending`. |
| HubCalls.Live.TimeOut | hub/icsd_hub/rpc.py:40-42 | The timer cancels an open future; the call stays where it is until its task runs, and will end in an error. |
| HubCalls.Live.Resume | hub/icsd_hub/rpc.py:40-47 | The call ends and leaves `pending`; it returns exactly a result that came before any time-out, from a message of its own id. |
| HubCalls.Live.SetAside | hub/icsd_hub/agents.py:150-155 | A newer socket first sets the old one aside and leaves calls and `pending` alone. |
| HubCalls.Live.TakeOver | hub/icsd_hub/agents.py:156-159 | Later, with anything in between, it becomes the current socket. |
| HubCalls.Live.Receive | hub/icsd_hub/agents.py:178-181 | Any message: it completes the open future of its own id if that call is pending, and no other; otherwise no call changes. |
| HubCalls.Live.Disconnect | hub/icsd_hub/agents.py:192-198 | Only the current socket's end breaks anything, and then exactly the pending futures that are open. |
| Nginx.ApplyDirective | agent/internal/actions/ssl.go:168-198 | The loops over a directive's arguments give the update of the current site. |
| Nginx.ParseNginxConf | agent/internal/actions/ssl.go:141-230 | The character loop gives the fold over the text without its comments. |
| Nginx.StripIsLineByLine | agent/internal/actions/ssl.go:142-149 | Cutting comments line by line and joining is one automaton over the characters. |
| Nginx.ScanInside | agent/internal/actions/ssl.go:162-228 | Inside a server block any tree, at any depth, only updates the current site, in document order. |
| Nginx.ScanOutside | agent/internal/actions/ssl.go:162-228 | Outside, a tree appends exactly its sites. |
| Nginx.SiteOfIsApplyAll | agent/internal/actions/ssl.go:168-198 | The updates in order amount to: direct names, first root and proxy, last certificate, any TLS sign. |
| Nginx.KeepNamesConcat | agent/internal/actions/ssl.go:171-177 | Server names are kept one by one in order, but for `_`, `localhost` and the empty quotes. |
| Nginx.TlsArgIff | agent/internal/actions/ssl.go:183-188 | A listen argument means TLS exactly if it is `ssl`, `443` or ends in `:443`. |
| Nginx.ParseLaidOut | agent/internal/actions/ssl.go:141-230 | For every tree whose words are free of blanks, `;`, braces and `#`, and every legal layout (blanks, newlines, comments, an unfinished last comment), scanning the text gives the sites defined on the tree. |
| Nginx.ReadAsOneWordIff | agent/internal/actions/ssl.go:156-167 | A text is read as the one word it is if and only if it is free of blanks, `;`, braces and `#`: exactly the words of the trees above. |
| Demux.Strip | agent/internal/actions/system.go:288-302 | The loop gives the payloads of a stream; input that is too short or does not start with stream 1 or 2 and three zeros comes back as it is. |
| Demux.LengthIs | agent/internal/actions/system.go:294 | The length is read most significant byte first. |
| Demux.StripCut | agent/internal/actions/system.go:288-302 | Of a stream cut after any 8 or more bytes, exactly the payload bytes before the cut come out. |
| Demux.StripWhole | agent/internal/actions/system.go:288-302 | The whole stream gives the payloads in order. |
| Demux.StripCutIsPrefix | agent/internal/actions/system.go:288-302 | A cut stream gives a prefix of the payloads. |
| Totp.VerifyTotp | hub/icsd_hub/security.py:67-76 | Of the code with blanks removed, the result is the earliest matching step near the clock after the last one used; 0 for six digits means that there is none. |
| Totp.SpaceInTheMiddle | hub/icsd_hub/security.py:69 | A code typed with a space in the middle is the code. |
| Totp.CurrentCodeAccepted | hub/icsd_hub/security.py:67-76 | The code an authenticator shows now is accepted unless it or a later one was used. |
| Totp.AcceptKeeps | hub/icsd_hub/auth.py:138-145 | Accepting a later step of a secret only one user holds keeps the invariant. |
| Totp.RunKeeps | hub/icsd_hub/auth.py:98-264 | Secrets are held by one user each, never both active and pending, and no accepted step is above its user's last. |
| Totp.NoStepTwice | hub/icsd_hub/auth.py:137-264 | Over any run of log-ins, elevations, set-ups, confirmations and resets, with any clock, no step of a secret is accepted twice. |
| Totp.TakenFromOwner | hub/icsd_hub/auth.py:137-264 | Every code ever accepted was of a secret that its user had at the time, and was spent by an operation of that user. |
| Totp.ReplayRefused | hub/icsd_hub/security.py:67-76 | While a secret is active a code is taken only for a step later than all taken before. |
| LoginLimit.PruningChangesNoAnswer | hub/icsd_hub/auth.py:105-119 | With a clock that never goes back, deleting old rows changes no answer to any attempt and no row written. |
| LoginLimit.EveryWindowBounded | hub/icsd_hub/auth.py:105-144 | Every window of 900 seconds has at most 8 failures of an ordinary username, 10 from an address through log-in and 10 through enrolment. |
| LoginLimit.KeptCounts | hub/icsd_hub/auth.py:117-119 | A deletion does not change any count that looks no further back. |
| LoginLimit.KeptConcat | hub/icsd_hub/auth.py:119 | A deletion takes out rows one by one, exactly those before the cutoff, and leaves the order. |
| LoginLimit.TooManyIff | hub/icsd_hub/auth.py:105-110 | An attempt is refused exactly after ten failures of the address or eight of the name in the last 900 seconds. |
| LoginLimit.TooManyEnrollsIff | hub/icsd_hub/agents.py:104-107 | Enrolment is refused exactly after ten failures of the address in the last 900 seconds. |
| LoginLimit.EnrollBounded | hub/icsd_hub/agents.py:104-113 | A row written by enrolment after its own count keeps the window within the limit. |
| LoginLimit.Failures.Attempted | hub/icsd_hub/auth.py:113-144 | A row is written exactly for a bad attempt within the limit. |
| LoginLimit.Failures.Enrolled | hub/icsd_hub/agents.py:104-113 | Refused with a bad token or too many failures; a row is written exactly for a bad token within the limit. |
| LoginLimit.Failures.DeleteOld | hub/icsd_hub/auth.py:117-119 | Removes exactly the rows older than the window. |
| Totp.Factors.Login | hub/icsd_hub/auth.py:137-145 | The code of a log-in is spent exactly if it is accepted. |
| Totp.Factors.Elevate | hub/icsd_hub/auth.py:255-262 | Succeeds exactly if two-factor is on and the code is accepted, and spends it. |
| Totp.Factors.Begin | hub/icsd_hub/auth.py:190-202 | The new secret becomes pending exactly if two-factor was off or a current code was given and spent; the active secret stays, and nothing is stored for a user who is gone. |
| Totp.Factors.Confirm | hub/icsd_hub/auth.py:205-213 | The pending secret becomes the active one exactly if a code of it is accepted. |
| Totp.Factors.Reset | hub/icsd_hub/auth.py:98-99 | Clears both secrets and the last step. |
| Auth.Accounts.Create | hub/icsd_hub/auth.py:54-75 | Refused exactly for a bad name, a short password, an unknown role or a name in use, with nothing changed; otherwise a row without two-factor appears. |
| Auth.Accounts.Delete | hub/icsd_hub/auth.py:82-89 | Refused for a missing user and the last administrator, so one is always left; sessions go with the user. |
| Auth.Accounts.SetPassword | hub/icsd_hub/auth.py:92-95 | A short password is refused; otherwise all sessions of the user end. |
| Auth.Accounts.Login | hub/icsd_hub/auth.py:127-152 | Whoever gets in has an account of that name and its password; within the limit a missing name or a password that does not fit is exactly the recorded failure; a password that fits gets in without two-factor, and with it exactly with an accepted code, which is written down as spent on the session opened. |
| Auth.Accounts.UserOf | hub/icsd_hub/auth.py:159-175 | Who a session is: exactly the user of a session that has not expired; an expired one is deleted. |
| Auth.Accounts.Elevate | hub/icsd_hub/auth.py:251-264 | With an accepted code, written down as spent on it, this session and no other is elevated for fifteen minutes. |
| Auth.Accounts.Begin | hub/icsd_hub/auth.py:190-202 | Starting a new secret changes nobody's active factor and no session. |
| Auth.Accounts.Confirm | hub/icsd_hub/auth.py:205-216 | Confirming it ends all other sessions of the user. |
| Auth.Accounts.Reset | hub/icsd_hub/auth.py:98-100 | Removes the factor and ends all sessions of the user. |
| Auth.Accounts.Prune | hub/icsd_hub/auth.py:117-122 | Removes exactly the failure rows older than the window and the sessions expired. |
| Auth.Accounts.SecondFactorShown | hub/icsd_hub/auth.py:212-216 | In every reachable state, a session of a user whose two-factor is on has its own accepted code: of that user, of the secret active now, and spent on opening this session or confirming the secret in it. |
| Auth.Accounts.OneCodeOneSession | hub/icsd_hub/auth.py:137-152 | The codes of two such sessions differ in secret or time step. |
| Auth.Accounts.ElevatedRecently | hub/icsd_hub/auth.py:251-276 | A session allowed to do dangerous things spent an accepted code on that at most fifteen minutes before: a code of its own user, of a secret the user had when it was taken. |
| Auth.Accounts.ElevationHasItsOwnCode | hub/icsd_hub/auth.py:251-264 | That code opened no session and elevated no other. |

## Left out

Assumed of the surroundings:

- Random ids, temporary-file names and one-time secrets are fresh; upload targets are never named like temporary files.
- SQL statements are atomic, codecs (JSON, base64) are inverses, HMAC, SHA and bcrypt are arbitrary functions.
- A database dump or archive job is a step that yields a complete file or an error; waiting for a job is not modelled.
- During a run no newer backup of the same plan appears, and nobody deletes the new file by hand; plans have dash-free prefixes, as `create` makes them, and other files are not named like this plan's.
- The hub may stop between inserting an event and sending its message; the log then counts the message as sent.

Not modelled:

- Path policy, owner and mode of files, symbolic links, power loss.
- Copy.CopyBetween: the source file does not change during the copy; the name of the destination is given.
- Copy.Server.FsWrite: an invalid encoding of the data, which is refused like a chunk too large.
- Copy.Server.FsAbort: the form of an upload's name; names are numbers here.
- Link.SentInOrder: a send that reported an error may have reached the hub all the same, and its sample is then sent again.
- Link.Agent.Await: dialling, the greeting and the reader goroutine are the steps around it.
- Nginx.ParseLaidOut: nginx allows quoted arguments that contain blanks, `;`, braces or `#`; the scanner knows no quotes, and `Nginx.ReadAsOneWordIff` says exactly which words it reads as they are.
- Auth.Accounts.Login: addresses and browsers of sessions and the audit trail; trimming and lower-casing of the name are any function.
- Totp.VerifyTotp: digits outside ASCII are refused instead of raising an error, and only the common blanks are trimmed.
- LoginLimit.Failures.Enrolled: what a good token leads to.
- Schedule.NextRun: rounding of floating-point times to microseconds; `after` is a whole number of them.
- Scheduler.Scheduler.Tick: the servers online are a parameter, and the rest of the plan's row (names, targets, destinations) is not kept.
- Scheduler.Scheduler.Drop: the event loop's callback comes at any time after the run recorded its end.
- Alerts.StepKeeps: message texts and severities, except which message is sent for which key.
- The evaluators of offline servers, URL checks and certificates are not modelled; they call `step` as the sample evaluator does.
- The ring of recent points, the clamping of sample times, the cleaning of raw samples and the hourly rollup.
- The loop that reconnects the agent, pings, cancellation of the session between batches.
- Printing of dates in Persian digits; hours and minutes.
- File listing, archives, services, Docker control, console, certificates, the web interface and the archived first version.
