# Verified model of the platform's stateful core

A Dafny model of six components of an agent-sandbox platform, with proofs of what they promise.
`dafny verify dfyconfig.toml` checks everything.

- **Archives** (`Bytes`, `Utf8`, `Digits`, `Pax`, `TarFields`, `TarHeader`, `TarReader`, `TarArchive`,
  `TarTheorems`). A tar plan announces its length before the first byte is written; a generator then
  emits headers, pax records, contents and padding. `TarReader` is an independent reader after the
  "ustar Interchange Format" and "pax Extended Header" sections of the `pax` utility in POSIX.1-2017;
  the theorems say that writer and reader undo each other, and when the announced length is exact.
- **Automation scheduler** (`Automation`, `AutomationLog`, `AutomationTheorems`, `AutomationCauses`,
  `SkipLedger`, `SchedulerFacts`, `SweepFacts`, `Scheduler`). The two tables are the durable state and every `uow.run` is one
  transaction in a history. `AutomationLog` says which transactions are allowed and what they do, and
  `AutomationTheorems` what holds after every allowed history. `Scheduler` is the sweep itself: every
  await may throw or be the moment the process dies, loaded rules and runs are local variables, and
  each method is proved to commit only allowed transactions. So the theorems hold across every fault.
  Ghosts record the queries of a sweep, the phases that sandboxes answered, the launcher's calls with
  their answers, and for what each transaction was committed. From them `RunOnce` states what became of
  every item that any stage was answered with, and `AutomationCauses` what a refusal leads to.
- **Runtime log** (`LogWriter`, `LogReader`, `LogPipeline`). The writer has paths, inodes, a stream
  with a buffer of its own and an end callback that comes later; the reader takes the newest bytes and
  gives out whole lines; the pipeline composes the two.
- **Audit stream** (`Audit`, `Redaction`, `RedactionKeys`, `RedactionShapes`). Paging and polling over a table that changes between the
  calls, batched pruning with rows arriving at every pause, and the redactor; which keys are sensitive and what is
  written for commands, long texts and lists is stated apart from the functions that do it.
- **Passcode lockout** (`Passcode`). One limiter behind two doors, and a bound over whole histories.
- **Event bus and image references** (`EventBus`, `ImageRef`).

Text is a sequence of UTF-16 units, bytes are integers from 0 to 255, times are integers in
milliseconds. Whatever the outside world decides (what a file delivers, whether a call throws, what a
phase query answers, what arrives at a pause) is a parameter or left open, so the results hold for all
of it.

Where the code and its comments, or an obvious reading of them, disagree, the model follows the code:

- `TarTheorems.ExactLength`: "exactly the planned number of bytes" holds if and only if every entry with
  a size is a file with a source, because the plan counts the size of any entry
  (`packages/shared-kernel/src/fs/tar-archive.ts:63-67`) and the generator writes only those
  (`packages/shared-kernel/src/fs/tar-archive.ts:116`).
- `TarTheorems.RoundTrip`: sizes and times from 8 to the 11th on fill their field without a
  terminator (`packages/shared-kernel/src/fs/tar-archive.ts:185-194`); a reader then rejects the archive.
- `AutomationTheorems.CapacityAccounting` and `AutomationTheorems.FreshRunFails`: a refusal for lack of
  capacity is meant to count only after a run's own 5 queued retries. It does exactly for the runs that
  were ever queued; a run that was only just opened is ended at once when the rule's latest live run has
  used up its own (`packages/modules/automation/src/application/automation.scheduler.ts:518-529`).
- `AutomationTheorems.RowExactlyIfCommitted` and `AutomationTheorems.SlotIsLost`: each due slot is meant to
  leave exactly one row (`packages/modules/automation/src/domain/entities/automation.entity.ts:59`). It has
  at most one, and it has one if and only if a row was committed while the slot was open. A crash after
  the advance, or a transaction that throws in `openRun` or `persistRun` while the process lives on and
  only notes the exception, loses the slot for good; `FireOne` returns only when the row is there.
- `Scheduler.AutomationScheduler.RunOnce`: a process that dies while a sandbox is provisioned is meant to go
  on from the tables (`packages/modules/automation/src/application/automation.scheduler.ts:285-288`). A run
  that was opened and whose row was not saved again before the process died is pending without a
  sandbox, and every later sweep leaves it exactly so.
- `LogReader.LosesNewest` and `LogReader.NewestLost`: the reader is meant to lose the oldest lines, but
  when a file does not end in a newline it can lose the newest. `LogReader.TwoByteEndsCost`: carriage
  returns count against the limit though they are not given out. `LogReader.SelectionOfWindow`: a stack is
  meant to go with the entry before it, but the end of one that the cut has parted from its entry is given
  out whatever the time range.
- `Redaction.DepthIsLimited` and `Redaction.DepthIsAttained`: the depth limit starts over below a command
  key, so the bound on the output grows with the number of those.
- `ImageRef.IdempotentWhen` and `ImageRef.ReformatUnstable`: printing a parsed reference is not stable
  for every string.

## Model

| member | source | states |
|---|---|---|
| TarTheorems.RoundTrip | packages/shared-kernel/src/fs/tar-archive.ts:98-251 | For every list of well-formed entries and whatever the files deliver, a POSIX ustar/pax reader run on the written bytes reports the same members: names and link targets (through prefix split or pax records), a regular file, link or directory as the reader's own table of type flags has it, 12 permission bits, no owner, times, sizes, and each content cut or zero-padded to its planned size. It rejects the archive exactly when some size or time needs more than 11 octal digits |
| TarTheorems.NamesRoundTrip | packages/shared-kernel/src/fs/tar-archive.ts:215-234 | Read back as text, name and link target are the entry's own, up to lone surrogates, which UTF-8 cannot carry |
| TarTheorems.ExactLength | packages/shared-kernel/src/fs/tar-archive.ts:63-149 | The archive is a whole number of 512-byte blocks and never longer than planned; its length equals `totalBytes`, for every way the files chunk, grow, shrink or fail, exactly when every entry with a size is a file with a source |
| TarTheorems.ReadEntry | packages/shared-kernel/src/fs/tar-archive.ts:98-120 | One entry, with its extended header if it needs one, read from the front of an archive: the reader reports that member and goes on with the untouched rest, or rejects when a number does not fit |
| TarTheorems.ReadPax | packages/shared-kernel/src/fs/tar-archive.ts:99-114 | The extended header block, its data and its padding are read as overrides for exactly the next entry |
| TarTheorems.PaxNeeds | packages/shared-kernel/src/fs/tar-archive.ts:215-225 | A path record is needed exactly for a name of more than 100 bytes that has no slash with at most 155 bytes before and 100 behind it, or whose first such slash is its first character; a linkpath record exactly for a target of more than 100 bytes |
| TarTheorems.PaxHeaderReads | packages/shared-kernel/src/fs/tar-archive.ts:100-110 | The block of an extended header reads as one named `PaxHeaders/` and the part of the name behind its last slash, cut to 100 bytes, with mode 644, the size of its data, the entry's time and type flag `x` |
| TarTheorems.ParsePaxData | packages/shared-kernel/src/fs/tar-archive.ts:227-234 | A length-driven parser recovers exactly the overrides that the entry needed from the concatenated records |
| TarTheorems.PaxDataFits | packages/shared-kernel/src/fs/tar-archive.ts:99-110 | The size of an extended header's data always fits its own octal field |
| TarReader.HeaderRoundTrip | packages/shared-kernel/src/fs/tar-archive.ts:159-194 | Parsing a written header block yields its name, mode, size, time, type flag and link, and owner and group 0, for any values that fit; otherwise the header is rejected |
| TarReader.ChecksumFits | packages/shared-kernel/src/fs/tar-archive.ts:177-181 | The byte sum of any header needs at most 6 octal digits |
| TarReader.ChecksumReads | packages/shared-kernel/src/fs/tar-archive.ts:177-181 | The stored checksum is the sum of the header's bytes with the checksum field taken as spaces, so a reader accepts it |
| TarFields.OctalRoundTrip | packages/shared-kernel/src/fs/tar-archive.ts:185-194 | An octal field reads back as its value with negatives taken as 0 exactly when the value is below 8 to the power of the digits; a longer one loses its terminator and is unreadable |
| TarFields.TruncateUtf8 | packages/shared-kernel/src/fs/tar-archive.ts:209-213 | The result is a beginning of the text that fits the byte limit, and the whole text if that fits |
| TarFields.TruncateIsLongest | packages/shared-kernel/src/fs/tar-archive.ts:209-213 | The text that is kept is the longest beginning whose bytes fit: every longer one is over the limit |
| TarFields.WriteAt | packages/shared-kernel/src/fs/tar-archive.ts:163-176 | Writing into the header buffer in place changes exactly the addressed bytes |
| TarHeader.SplitNameFits | packages/shared-kernel/src/fs/tar-archive.ts:197-207 | The two parts of a split name fit their 155 and 100 bytes, and joined with `/` they give the name back exactly if it fits as it is or was cut at a slash that is not its first character |
| TarHeader.SplitNameIs | packages/shared-kernel/src/fs/tar-archive.ts:197-207 | A name of at most 100 bytes stays whole; a longer one is cut at the first slash with at most 155 bytes before and 100 behind it; without such a slash only the longest beginning of at most 100 bytes is kept |
| TarHeader.BuildHeader | packages/shared-kernel/src/fs/tar-archive.ts:159-183 | Filling the zeroed buffer field by field and patching the checksum last gives exactly the header layout that the reader theorems are about |
| TarHeader.FillFields | packages/shared-kernel/src/fs/tar-archive.ts:163-176 | The in-place writes before the checksum produce the front, eight spaces and the back of the header, whatever order overlapping writes come in |
| TarHeader.ByteSum | packages/shared-kernel/src/fs/tar-archive.ts:177-178 | The loop adds up all bytes of the block |
| TarArchive.PlanTarArchive | packages/shared-kernel/src/fs/tar-archive.ts:79-84 | The accumulated total is the sum over the entries plus two closing blocks |
| TarArchive.GenerateTar | packages/shared-kernel/src/fs/tar-archive.ts:98-123 | The chunks that are yielded, put together, are the archive of the plan, however the source files chunk |
| TarArchive.StreamFileExactly | packages/shared-kernel/src/fs/tar-archive.ts:134-149 | The yielded chunks are the file's bytes cut at `size` or filled up with zeros, for every chunking and every early end |
| TarArchive.GeneratePax | packages/shared-kernel/src/fs/tar-archive.ts:99-114 | The extended header, its data and its padding, or nothing |
| TarArchive.GenerateBody | packages/shared-kernel/src/fs/tar-archive.ts:115-119 | The entry's header and, for a file with a source and a size, its content and padding |
| TarArchive.PaxDataFor | packages/shared-kernel/src/fs/tar-archive.ts:227-234 | The records that are joined are those that the entry needs, in the order path, linkpath |
| Pax.PaxRecord | packages/shared-kernel/src/fs/tar-archive.ts:237-246 | The guess-and-measure loop stops, and returns the record with the least length that counts itself correctly |
| Pax.GuessesGrow | packages/shared-kernel/src/fs/tar-archive.ts:239-245 | Each round of the loop moves the guess up, and never past the least self-consistent length |
| Pax.EncodeRecord | packages/shared-kernel/src/fs/tar-archive.ts:237-246 | The length a record states is its real length in bytes |
| Pax.ParseOfRecord | packages/shared-kernel/src/fs/tar-archive.ts:237-246 | A length-driven parser recovers key, value and the untouched remainder, even if the value has newlines or `=`, exactly when the key has no `=` |
| Utf8.DecodeOfEncode | packages/shared-kernel/src/fs/tar-archive.ts:163-176 | UTF-8 bytes of UTF-16 text decode to the text with lone surrogates replaced |
| Automation.DueSlotStays | packages/modules/automation/src/domain/entities/automation.entity.ts:326-412 | Recording an outcome, re-enabling or editing the schedule never moves a slot that is due; it leaves only with the whole rule, on the tenth failure |
| AutomationTheorems.GivesUpWhen | packages/modules/automation/src/domain/services/trigger-decision.domain-service.ts:59-93 | The table gives up exactly when the slot is not missed, the previous run is live, idle and out of retries, a credential is usable and there is no capacity |
| AutomationTheorems.DecisionTable | packages/modules/automation/src/domain/services/trigger-decision.domain-service.ts:59-93 | When the table gives which answer, for all six: missed before anything else, then a live run that is going, then the missing login, then retry below 5 and fail from 5 on without capacity, else trigger |
| AutomationLog.TablesAlwaysOk | packages/modules/automation/src/domain/entities/automation-run.entity.ts:200-287 | In every reachable state of the two tables: no run without its rule, at most 5 retries, a queued run has a retry time, a pending run has no sandbox, only terminal runs are marked applied |
| AutomationLog.StepKeepsRuns | packages/modules/automation/src/domain/entities/automation-run.entity.ts:200-287 | Every allowed transaction keeps that state of the run table |
| AutomationLog.ClockBound | packages/modules/automation/src/domain/entities/automation.entity.ts:295-298 | No rule row is stamped later than the latest transaction |
| AutomationTheorems.ExactlyOnce | packages/modules/automation/src/application/automation.scheduler.ts:657-687 | Over every legal history, a run's outcome reaches its rule's failure state at most once, and has done so exactly when its row is finished and marked applied |
| AutomationTheorems.AllCounted | packages/modules/automation/src/application/automation.scheduler.ts:234-276 | With no outcome pending, every finished run has been counted exactly once |
| AutomationTheorems.TerminalIsFinal | packages/modules/automation/src/domain/entities/automation-run.entity.ts:233-287 | Once terminal, a row changes in nothing but its outcome mark, whatever comes later |
| AutomationTheorems.FailureAccounting | packages/modules/automation/src/domain/entities/automation.entity.ts:326-364 | A rule's failure count is the number of failures and timeouts recorded since its last success, re-enabling or creation; it is degraded exactly from 3 on and never enabled from 10 on; it has a next slot exactly while it is enabled |
| AutomationTheorems.NextSlot | packages/modules/automation/src/domain/entities/automation.entity.ts:295-423 | Over every legal history, where each transaction leaves a rule's next slot: a new rule and one that is advanced take the next answer of their schedule, the daily one exactly from three failures on; the third failure, the success that heals, re-enabling and a new schedule do so unless the slot is due; a disabled rule has none; everything else leaves it |
| AutomationTheorems.RecordedSlot | packages/modules/automation/src/domain/entities/automation.entity.ts:326-364 | Recording an outcome moves a slot that is not due exactly when it makes the rule degraded or heals it, and takes it away on the tenth failure |
| AutomationTheorems.CapacityAccounting | packages/modules/automation/src/application/automation.scheduler.ts:518-631 | A run that ended with the capacity code had used up its own 5 queued retries if and only if it was ever queued; one that was not is ended only while another, live run of its rule has used up all of its own |
| AutomationTheorems.FreshRunFails | packages/modules/automation/src/application/automation.scheduler.ts:518-529 | It happens, with a rule that fires every two hours: a run's sandbox fails with a capacity code, it is queued and tried again 24 minutes later, five times; at the next slot a new run, never queued, fails for lack of capacity and counts; the decision is the table's own |
| AutomationTheorems.StepKeepsRetries | packages/modules/automation/src/domain/entities/automation-run.entity.ts:200-231 | Every allowed transaction keeps a row's retry count equal to the number of its queueings, and one that failed for lack of capacity at 0 or 5 |
| AutomationTheorems.QueueingsApart | packages/modules/automation/src/domain/value-objects/policies.vo.ts:32-42 | Two queueings of one run are at least 24 minutes apart, over every legal history |
| AutomationCauses.RefusalWaits | packages/modules/automation/src/application/automation.scheduler.ts:604-631 | Over every history whose transactions had their causes: a run that the launcher refuses, at creation or later by its phase, is queued again and no rule changes as long as it has retries left, and fails with the capacity code exactly when it has used up all 5 of its own |
| AutomationCauses.CountHasCause | packages/modules/automation/src/application/automation.scheduler.ts:604-687 | Whenever a rule's failure count goes up, a run has failed for a cause other than a refusal, or was refused with its own 5 retries used up, or was only just opened while another live run of the rule had used up its own |
| AutomationCauses.QueuedIsNotCounted | packages/modules/automation/src/application/automation.scheduler.ts:617-631 | However often it was refused, a run that is queued has not been counted |
| AutomationTheorems.DueSlotOnlyFires | packages/modules/automation/src/application/automation.scheduler.ts:473-476 | A due slot of an enabled rule leaves the scan only by a transaction that advances past it |
| AutomationTheorems.FiredIsBehind | packages/modules/automation/src/application/automation.scheduler.ts:467-476 | A slot that was advanced past is behind everything the rule will ever offer again |
| AutomationTheorems.SlotsIncrease | packages/modules/automation/src/application/automation.scheduler.ts:467-476 | Each advance of a rule is past a strictly later slot than every advance before |
| AutomationTheorems.SlotsWereFired | packages/modules/automation/src/application/automation.scheduler.ts:473-557 | Every run row was written for a slot that had been advanced past before |
| AutomationTheorems.RowsHaveFiredSlots | packages/modules/automation/src/application/automation.scheduler.ts:473-557 | Every row in the table was written for a slot whose advance is in the history |
| AutomationTheorems.SlotOfStays | packages/modules/automation/src/application/automation.scheduler.ts:546-557 | The slot of a row never changes afterwards |
| AutomationTheorems.OpenSlotHasNoRow | packages/modules/automation/src/application/automation.scheduler.ts:473-536 | A slot that is advanced past and still open has no row |
| AutomationTheorems.RowExactlyIfCommitted | packages/modules/automation/src/application/automation.scheduler.ts:473-557 | A slot of a rule has a row if and only if some row of that rule was committed while the slot was open |
| AutomationTheorems.NoRowYet | packages/modules/automation/src/application/automation.scheduler.ts:473-476 | Right after the advance the slot has no row |
| AutomationTheorems.NeverARow | packages/modules/automation/src/application/automation.scheduler.ts:429-441 | A slot that is past, not open any more and without a row never gets one, whatever comes later |
| AutomationTheorems.SlotIsLost | packages/modules/automation/src/application/automation.scheduler.ts:473-557 | It happens: after a legal history in which the transaction of the row did not commit, that slot has no row in any continuation |
| AutomationTheorems.SlotHasAtMostOneRow | packages/modules/automation/src/application/automation.scheduler.ts:445-536 | Over every history of sweeps, throws, crashes and edits, no two rows were written for one slot |
| Scheduler.AutomationScheduler.Transact | packages/modules/automation/src/application/automation.scheduler.ts:669-673 | A transaction that had its cause commits as a whole, or leaves nothing; a crash may come before or right after the commit |
| Scheduler.AutomationScheduler.CreateSandbox | packages/modules/automation/src/application/automation.scheduler.ts:584-591 | A sandbox is only asked for, with one call, once the run's row is durable, and with it the advance past its slot |
| Scheduler.AutomationScheduler.StartTask | packages/modules/automation/src/application/automation.scheduler.ts:633-636 | A task is only started on the sandbox of a durable live run |
| Scheduler.AutomationScheduler.ApplyOutcome | packages/modules/automation/src/application/automation.scheduler.ts:657-687 | Rule and run change together: the rule by one recorded outcome, the run to finished and applied; or neither |
| Scheduler.AutomationScheduler.FinishTask | packages/modules/automation/src/application/automation.scheduler.ts:396-404 | Teardown is only ever called when the durable row is terminal already |
| Scheduler.AutomationScheduler.QueueOrGiveUp | packages/modules/automation/src/application/automation.scheduler.ts:617-631 | Below 5 retries the same row is queued again 24 minutes later and the rule is untouched; at 5 the run fails with RESOURCE_EXHAUSTED and counts |
| Scheduler.AutomationScheduler.ApplyOne | packages/modules/automation/src/application/automation.scheduler.ts:250-263 | An orphan's recorded outcome is applied after teardown, or nothing changed |
| Scheduler.AutomationScheduler.TryApplyOne | packages/modules/automation/src/application/automation.scheduler.ts:249-271 | One orphan's turn: without a fault it is applied; one with a fault is noted for it, goes no further, and is not counted as touched |
| Scheduler.AutomationScheduler.ApplyEach | packages/modules/automation/src/application/automation.scheduler.ts:249-275 | Whatever throws, every orphan of the batch ends applied or noted and no other row changes; without faults exactly the batch leaves the pending set; touched and noted add up to the batch |
| Scheduler.AutomationScheduler.Fetch | packages/modules/automation/src/application/automation.scheduler.ts:246-318 | A query answers with candidates only, without repeats, leaves out at most rows that cannot be decoded, or throws as a whole |
| Scheduler.AutomationScheduler.ApplyPendingOutcomes | packages/modules/automation/src/application/automation.scheduler.ts:246-276 | The query of the stage and what became of its answer: every orphan applied or noted; without faults a full batch of up to 100 is gone |
| Scheduler.AutomationScheduler.TryStartSandbox | packages/modules/automation/src/application/automation.scheduler.ts:584-602 | With exactly one call for a sandbox and at most one transaction: a refusal queues the run, or at 5 gives it up; an exception fails it; a sandbox makes it running in exactly that one, or failed only if saving that threw |
| Scheduler.AutomationScheduler.FailStart | packages/modules/automation/src/application/automation.scheduler.ts:592-597 | The run fails, with the sandbox it may have got, and counts, in one transaction |
| Scheduler.AutomationScheduler.SaveStarted | packages/modules/automation/src/application/automation.scheduler.ts:586-597 | The row is running in that sandbox, or, only if the save threw, failed and counted with it |
| Scheduler.AutomationScheduler.StartTaskOn | packages/modules/automation/src/application/automation.scheduler.ts:633-644 | The task is asked for; if it cannot be started the failure is durable before teardown and applied after it; otherwise nothing is written |
| Scheduler.AutomationScheduler.SaveThenConclude | packages/modules/automation/src/application/automation.scheduler.ts:369-380 | The result is persisted, then the sandbox torn down with one call, then the outcome applied; a stop in between leaves a terminal row that is still pending |
| Scheduler.AutomationScheduler.AdvanceTo | packages/modules/automation/src/application/automation.scheduler.ts:340-393 | Each phase has its own effect on the run and its own calls: none while provisioning or running; a task asked for when ready, failed if that threw; refusal for a capacity failure; teardown and the sandbox's own result otherwise; failure when it is gone |
| Scheduler.AutomationScheduler.ConcludeGone | packages/modules/automation/src/application/automation.scheduler.ts:382-392 | The run fails and counts, in one transaction |
| Scheduler.AutomationScheduler.AdvanceOne | packages/modules/automation/src/application/automation.scheduler.ts:335-394 | A run without a sandbox is left alone; any other has its sandbox asked, and a return means that the effect of exactly that phase is on the run, and its calls were made |
| Scheduler.AutomationScheduler.TryAdvanceOne | packages/modules/automation/src/application/automation.scheduler.ts:308-314 | One run's turn: it was looked at and the answer acted on, with a task asked for if its sandbox was ready, or an exception is noted for it; no other row changes |
| Scheduler.AutomationScheduler.RetryQueued | packages/modules/automation/src/application/automation.scheduler.ts:293-305 | Every queued run whose time had come got its attempt, with the transaction that the launcher's answer demands, or is noted, whichever others threw; without faults that is all of them |
| Scheduler.AutomationScheduler.RetryOne | packages/modules/automation/src/application/automation.scheduler.ts:299-301 | The run gets one attempt, with one call for a sandbox, and becomes what the launcher's answer demands; if its rule is gone, nothing happens |
| Scheduler.AutomationScheduler.RetryEach | packages/modules/automation/src/application/automation.scheduler.ts:297-305 | Whatever throws, every run of the batch has had its attempt, with the transaction that the launcher's answer demands, and is not due any more, or is noted; no other row changes; touched and noted add up to the batch |
| Scheduler.AutomationScheduler.AdvanceEach | packages/modules/automation/src/application/automation.scheduler.ts:308-314 | Whatever throws, every run of the batch was looked at and the phase that its sandbox answered acted on, with the calls that takes, or an exception is noted for it; no other row changes, nor does one without a sandbox |
| Scheduler.AutomationScheduler.AdvanceInFlight | packages/modules/automation/src/application/automation.scheduler.ts:292-316 | First the due retries, then every run in flight by then, unless the first query threw as a whole: each attempted or looked at, or noted; without faults no retry that was due is left |
| Scheduler.AutomationScheduler.FindLatest | packages/modules/automation/src/infrastructure/persistence/sqlite/automation-run.repository.impl.ts:35-44 | The run of the rule that is last by trigger time and then by id, or none exactly if it has no run |
| Scheduler.AutomationScheduler.IsPreviousStillGoing | packages/modules/automation/src/application/automation.scheduler.ts:571-576 | A live run without a sandbox is going; one with a sandbox is asked for, and is going exactly if the phase that was answered is provisioning, ready or running; a run that has ended is not, and is not asked for |
| Scheduler.AutomationScheduler.Consider | packages/modules/automation/src/application/automation.scheduler.ts:445-465 | Deciding writes nothing: the decision is the table's for the rule's latest run, whether it is still going, the credential and the capacity, and it gives up only on account of a live run out of retries |
| Scheduler.AutomationScheduler.AdvanceSlot | packages/modules/automation/src/application/automation.scheduler.ts:473-476 | The next slot is durable, later than now, the daily one exactly if at least three failures were recorded since the last success, and the passed one is open for a row |
| Scheduler.AutomationScheduler.OpenRun | packages/modules/automation/src/application/automation.scheduler.ts:546-557 | One transaction writes the new pending row for exactly the open slot and stamps the rule |
| Scheduler.AutomationScheduler.CloseSlot | packages/modules/automation/src/application/automation.scheduler.ts:479-507 | The open slot gets exactly this terminal row, marked applied, and the rule is untouched |
| Scheduler.AutomationScheduler.OpenAndQueue | packages/modules/automation/src/application/automation.scheduler.ts:508-517 | Without capacity the new row is queued for 24 minutes later, once, and no sandbox is asked for |
| Scheduler.AutomationScheduler.OpenAndGiveUp | packages/modules/automation/src/application/automation.scheduler.ts:518-529 | The new row fails with RESOURCE_EXHAUSTED and counts |
| Scheduler.AutomationScheduler.OpenAndStart | packages/modules/automation/src/application/automation.scheduler.ts:530-534 | The new row is running, queued, or failed and counted, as the launcher's answer to its one call demands |
| Scheduler.AutomationScheduler.Execute | packages/modules/automation/src/application/automation.scheduler.ts:478-535 | Each decision leaves its own kind of row for the open slot, only `trigger` asks for a sandbox and leaves what the answer demands, and the rule is not due again |
| Scheduler.AutomationScheduler.FireOne | packages/modules/automation/src/application/automation.scheduler.ts:445-536 | Either nothing is written, or the advance is the first transaction; a return means that one new row was written for exactly that slot: missed if too late; else skipped while the latest run is going by the phase its sandbox answered; else skipped without a login; else queued for 24 minutes later, or failed if a live run has used up its 5 retries, without capacity; else as the launcher's answer demands, and in this case alone a sandbox was asked for |
| SchedulerFacts.SlotRowOf | packages/modules/automation/src/domain/services/trigger-decision.domain-service.ts:59-93 | The row that the decision table leads to is the one that is demanded for what was learnt, and it leads to a sandbox exactly if nothing speaks against one |
| Scheduler.AutomationScheduler.TryFireOne | packages/modules/automation/src/application/automation.scheduler.ts:430-440 | One rule's turn: its slot has a row and it is not due any more, or an exception is noted for it; no other rule and no older row changes |
| Scheduler.AutomationScheduler.FireEach | packages/modules/automation/src/application/automation.scheduler.ts:429-441 | Whatever throws, each rule of the batch is not due any more and its slot has a row, or is noted; no other rule and no older row changes, and new rows belong to rules of the batch; fired and noted add up to the batch |
| Scheduler.AutomationScheduler.FireDue | packages/modules/automation/src/application/automation.scheduler.ts:425-443 | Every rule that was due when the stage started is not due any more and has its row, or is noted, or could not be decoded, or the query threw as a whole |
| Scheduler.AutomationScheduler.RunStages | packages/modules/automation/src/application/automation.scheduler.ts:161-191 | Whatever throws, all three stages ask their queries of the tables as they then are, and at the end every item that any of them was answered with is dealt with or noted; without faults nothing that was due at its stage's time still is, and the pending set loses a whole batch |
| Scheduler.AutomationScheduler.RunOnce | packages/modules/automation/src/application/automation.scheduler.ts:159-170 | A second call changes nothing; otherwise, unless the process dies, every stage asked its query and every answered item is dealt with or on the ledger's new page; no row vanishes, terminal rows keep their verdict, and a pending row without a sandbox stays as it is; without faults no retry and no rule that was due still is, one batch of pending outcomes is gone and the ledger is empty |
| Scheduler.AutomationScheduler.Restart | packages/modules/automation/src/application/automation.scheduler.ts:159-170 | After a death of the process the tables are as they were, and the mutex and the ledger are fresh |
| Scheduler.AutomationScheduler.UserEdit | packages/modules/automation/src/domain/entities/automation.entity.ts:122-412 | Creating, enabling, disabling, rescheduling or deleting is one transaction of that kind, with that effect on this rule alone, or nothing if there is no such rule; deleting takes exactly the rule's runs along |
| Scheduler.Live | packages/modules/automation/src/application/automation.scheduler.ts:159-687 | For every sequence of sweeps, deaths and edits: every transaction had its cause, no slot with two rows, no outcome counted twice, failure counts that are the fold of recorded outcomes, at most 5 retries, and a failure for lack of capacity only after 5 retries or none |
| Scheduler.AlwaysHolds | packages/modules/automation/src/application/automation.scheduler.ts:159-687 | The same, for every legal history |
| SchedulerFacts.RecordedNotDue | packages/modules/automation/src/domain/entities/automation.entity.ts:326-412 | Recording an outcome never makes a rule due at a time at which it was not |
| SchedulerFacts.RefusalKeepsCounts | packages/modules/automation/src/application/automation.scheduler.ts:617-631 | A refusal changes no rule at all while retries are left, and gives the run the capacity code when none are |
| SweepFacts.BatchTaken | packages/modules/automation/src/application/automation.scheduler.ts:246-276 | Taking a full batch off the pending set leaves none when there were at most 100 |
| SweepFacts.PassStep | packages/modules/automation/src/application/automation.scheduler.ts:135-157 | One more item of a batch: what was dealt with before stays dealt with, and only this item's rows and its ledger entry change |
| SweepFacts.SweepEnds | packages/modules/automation/src/application/automation.scheduler.ts:161-191 | What each stage has dealt with is still so at the end of the sweep, whatever the later stages did |
| SweepFacts.CleanSweepLooks | packages/modules/automation/src/application/automation.scheduler.ts:335-418 | After a sweep without faults every run that was in flight at its query has had its sandbox asked and the answer acted on, with the calls that takes |
| SweepFacts.CleanSweepAttempts | packages/modules/automation/src/application/automation.scheduler.ts:296-305 | And every run whose retry was due at its query has had its attempt, with the transaction that the launcher's answer demands |
| SchedulerFacts.LatestExists | packages/modules/automation/src/infrastructure/persistence/sqlite/automation-run.repository.impl.ts:35-44 | Every non-empty set of runs has a last one |
| SkipLedger.Ledger.NoteSkipped | packages/modules/automation/src/application/automation.scheduler.ts:205-219 | The ledger then holds the item with the length of its unbroken run; a warning is due on the first and every 60th |
| SkipLedger.Ledger.BeginSweep | packages/modules/automation/src/application/automation.scheduler.ts:161-163 | A sweep gets a new number and starts with nothing skipped |
| SkipLedger.Ledger.ForgetHealedSkips | packages/modules/automation/src/application/automation.scheduler.ts:228-232 | After a sweep the ledger is exactly what the history of sweeps calls for |
| SkipLedger.LedgerSize | packages/modules/automation/src/application/automation.scheduler.ts:221-232 | The ledger holds exactly the items of the latest sweep, with counts between 1 and the number of sweeps |
| SkipLedger.RunIsBounded | packages/modules/automation/src/application/automation.scheduler.ts:205-209 | A count is the length of the run: that many latest sweeps skipped the item with this message, and the one before did not |
| SkipLedger.NextLength | packages/modules/automation/src/application/automation.scheduler.ts:205-209 | One more sweep with the same message adds one, any other restarts at one |
| LogWriter.RuntimeLogWriter.constructor | apps/api/src/platform/logging/runtime-log-writer.ts:70-76 | Opening on existing files keeps them all as the beginning of the log |
| LogWriter.RuntimeLogWriter.Write | apps/api/src/platform/logging/runtime-log-writer.ts:100-103 | The line is accepted at the end of the log; during a rotation it waits behind the others |
| LogWriter.RuntimeLogWriter.Enqueue | apps/api/src/platform/logging/runtime-log-writer.ts:123-139 | Files, stream and waiting lines together grow by exactly this line; a rotation starts if and only if the current file is not empty and the line would take it over `maxBytes` |
| LogWriter.RuntimeLogWriter.BeginRotate | apps/api/src/platform/logging/runtime-log-writer.ts:141-151 | The stream is asked to end and nothing moves yet; its file keeps its name until the callback |
| LogWriter.RuntimeLogWriter.StreamWrites | apps/api/src/platform/logging/runtime-log-writer.ts:137-151 | What the stream writes goes to the file that the current path names, in order |
| LogWriter.RuntimeLogWriter.EndCallback | apps/api/src/platform/logging/runtime-log-writer.ts:150-166 | After each rotation at least one waiting line is on its way and the rest waits in order; exactly the oldest file has been dropped |
| LogWriter.RuntimeLogWriter.ShiftFiles | apps/api/src/platform/logging/runtime-log-writer.ts:179-192 | Exactly the oldest file goes, whole, and all others keep their order; `Rename` demands that its target is free, so no kept file is overwritten |
| LogWriter.RuntimeLogWriter.OpenStream | apps/api/src/platform/logging/runtime-log-writer.ts:202-218 | The stream and the size belong to the file that the current path names; a file that was not there is empty, and nothing retained changes |
| LogWriter.RuntimeLogWriter.FinishRotate | apps/api/src/platform/logging/runtime-log-writer.ts:153-166 | Shift, reopen, replay: nothing but the oldest file is lost, and at least one waiting line is on its way |
| LogWriter.KeptShifted | apps/api/src/platform/logging/runtime-log-writer.ts:187-191 | After the shift the names hold what the names below held, in the same order |
| LogWriter.TidyShift | apps/api/src/platform/logging/runtime-log-writer.ts:179-192 | Started without files, the writer drops only files of its own that keep to the limit, and none before the highest path is reached |
| LogWriter.RuntimeLogWriter.FlushPending | apps/api/src/platform/logging/runtime-log-writer.ts:194-200 | All waiting lines are accepted again in order, some possibly waiting for the next rotation, at least one not |
| LogWriter.RuntimeLogWriter.Drain | apps/api/src/platform/logging/runtime-log-writer.ts:153-166 | Without new lines, n waiting lines drain in at most n rotations, and nobody waits any more |
| LogWriter.RuntimeLogWriter.ExistingPaths | apps/api/src/platform/logging/runtime-log-writer.ts:89-97 | The paths that exist, oldest first, hold exactly what is retained |
| LogWriter.RuntimeLogWriter.KeptIsSuffix | apps/api/src/platform/logging/runtime-log-writer.ts:89-200 | Retained files, stream and waiting lines are exactly a suffix of the whole log |
| LogWriter.RuntimeLogWriter.StartedFilesFit | apps/api/src/platform/logging/runtime-log-writer.ts:129-139 | Every file the writer started is within `maxBytes` or holds a single line |
| LogWriter.RuntimeLogWriter.NotifyIdle | apps/api/src/platform/logging/runtime-log-writer.ts:220-225 | Waiters are resolved only when nothing rotates and nothing waits |
| LogWriter.RuntimeLogWriter.WhenIdle | apps/api/src/platform/logging/runtime-log-writer.ts:106-109 | Resolved at once exactly when idle; otherwise one more waits |
| LogWriter.RuntimeLogWriter.Happens | apps/api/src/platform/logging/runtime-log-writer.ts:79-166 | What each event does: a line is accepted, the stream writes as many buffered chunks as it likes, an end callback drops the oldest file and lets at least one waiting line go, a waiter is registered exactly during a rotation |
| LogWriter.Live | apps/api/src/platform/logging/runtime-log-writer.ts:56-226 | For every interleaving of lines, stream progress, end callbacks and waiters: what is kept is the log behind the files that rotations dropped, one whole file each; started without files, each keeps to the limit and none holds anything before as many are kept as may be |
| LogReader.PlanWithinBudget | apps/api/src/platform/logging/runtime-log-reader.ts:77-98 | The backward loop takes whole files from the newest while they fit, and the tail of the next |
| LogReader.DropFirst | apps/api/src/platform/logging/runtime-log-reader.ts:113-125 | Reading from any byte behind the first, also inside a CRLF, and dropping the first line leaves whole lines of the file, at most one less than possible |
| LogReader.Emit | apps/api/src/platform/logging/runtime-log-reader.ts:100-142 | The output is the selected lines of the window in order, up to the first that does not fit |
| LogReader.EmitLines | apps/api/src/platform/logging/runtime-log-reader.ts:120-140 | The inner loop keeps the governing stamp across lines without one, passes over those that are out of range, and stops at the limit |
| LogReader.GoverningIsNearest | apps/api/src/platform/logging/runtime-log-reader.ts:126-131 | A line is judged by the stamp of the nearest stamped line at or before it, and by none only if there is none |
| LogReader.SelectedAre | apps/api/src/platform/logging/runtime-log-reader.ts:126-131 | What is selected are exactly the lines, in their order, for which the nearest stamped line at or before them is missing, does not parse, or lies between the ends of the range, both included |
| LogReader.Read | apps/api/src/platform/logging/runtime-log-reader.ts:48-70 | Nothing at all exactly when there are no bytes or no budget; truncated exactly when there are more bytes than the budget; the output is made of the lines of the window whose nearest stamp at or before is missing, unparsable or between both ends of the range, in order, as many as fit |
| LogReader.WindowIsTight | apps/api/src/platform/logging/runtime-log-reader.ts:77-125 | For any files the whole lines in the window are all lines from some point to the end, across files; they take up at most the budget, and with one more line would at least fill it |
| LogReader.LinesAppend | apps/api/src/platform/logging/runtime-log-reader.ts:111-125 | Behind a newline the lines start afresh: the lines of two pieces are those of the first and then those of the second |
| LogReader.NewestLines | apps/api/src/platform/logging/runtime-log-reader.ts:48-142 | For any range, and files that end their last line in LF or CR: exactly the lines in range of a suffix of all lines, each judged by the nearest stamp in the suffix, within `maxBytes`; two lines more would take up more in the files, and, where no line ends in CRLF, in the output without a range |
| LogReader.NotTruncated | apps/api/src/platform/logging/runtime-log-reader.ts:60-68 | For such files and any range: if the reader does not report truncation, the output is exactly the lines in range of the complete log |
| LogReader.SelectionOfWindow | apps/api/src/platform/logging/runtime-log-reader.ts:106-131 | What the range selects of the window is the end of what it selects of the whole log if and only if the window does not begin with unstamped lines of an entry that is out of range |
| LogReader.CutEntryComesOut | apps/api/src/platform/logging/runtime-log-reader.ts:107-131 | It happens: the stack of an entry out of range comes out when the cut falls between the two |
| LogReader.LosesNewest | apps/api/src/platform/logging/runtime-log-reader.ts:132-137 | For any range the newest selected lines are lost exactly when the selected lines of the window, with one newline each, are over the limit |
| LogReader.OutputSize | apps/api/src/platform/logging/runtime-log-reader.ts:132-139 | What is given out for a file is exactly its size, less one byte for each CRLF, and one more if its last line is not ended |
| LogReader.WholeLogComesOut | apps/api/src/platform/logging/runtime-log-reader.ts:132-139 | A log within the budget comes out whole if and only if it still is with the newlines that are added and the carriage returns that are dropped |
| LogReader.NewestLost | apps/api/src/platform/logging/runtime-log-reader.ts:132-137 | It happens: a file without a final newline pushes out the newest line |
| LogReader.TwoByteEndsCost | apps/api/src/platform/logging/runtime-log-reader.ts:77-98 | With CRLF it can be fewer lines than the output has room for: a carriage return counts against the limit but is not given out |
| LogPipeline.Export | apps/api/src/platform/logging/runtime-log-reader.ts:48-142 | Reader after writer, at any moment, for any range, with lines that have newlines inside, and over a log that an earlier process began: the files hold the log without what rotations dropped and without what is still on its way, and the export is exactly what the range selects of a run of their lines that ends with the newest; two more would not fit; it is the end of the whole selection if and only if the run does not begin inside an entry out of range; nothing comes out exactly when the files hold nothing or there is no budget |
| LogPipeline.LinesOfFile | apps/api/src/platform/logging/runtime-log-reader.ts:111-125 | Reading a file finds the lines of the chunks written to it, one chunk after the other |
| LogPipeline.PlainLines | apps/api/src/platform/logging/runtime-log-reader.ts:111-125 | A written line without line breaks inside is read as one line, and that line |
| Audit.BuildConditions | apps/api/src/platform/audit/audit.repository.ts:172-199 | The pushed conditions together select exactly the rows the caller asked for |
| Audit.AuditRepository.List | apps/api/src/platform/audit/audit.repository.ts:70-82 | The newest `limit` matching rows, newest first; `hasMore` exactly when another match is left, and everything left is older |
| Audit.WalkIsComplete | apps/api/src/platform/audit/audit.repository.ts:70-82 | Following `before` to the end returns every matching row that is there all along, whatever is appended or pruned in between |
| Audit.WalkDescends | apps/api/src/platform/audit/audit.repository.ts:70-82 | The pages together are strictly descending, without repeats, and only matches |
| Audit.WalkIsFinite | apps/api/src/platform/audit/audit.repository.ts:70-82 | A walk has at most one page more than there were numbers |
| Audit.PollingSkipsNothing | apps/api/src/platform/audit/audit-events.sqlite.ts:30-41 | Polling `since` while `hasMore` is false skips no row, because numbers are never reused |
| Audit.AuditRepository.PruneBatch | apps/api/src/platform/audit/audit.repository.ts:117-131 | Exactly the oldest selected rows go, at most 1000 and at most the limit, or a call of the database threw and nothing is changed |
| Audit.VictimsAre | apps/api/src/platform/audit/audit.repository.ts:117-131 | Selecting the oldest numbers first and deleting the rows with these numbers takes exactly the oldest selected rows, as many as there are up to the limit |
| Audit.AuditRepository.Yield | apps/api/src/platform/audit/audit.repository.ts:144-145 | Rows that arrive at a pause go to the end under new numbers |
| Audit.AuditRepository.PruneOlderThan | apps/api/src/platform/audit/audit.repository.ts:137-148 | With rows arriving at every pause: what is left is exactly all rows, old and new, that are not older than the cutoff; the table only evolves as the walks allow, even when it fails half-way |
| Audit.AuditRepository.PruneToMaxRows | apps/api/src/platform/audit/audit.repository.ts:154-169 | With rows arriving at every pause: what is left is exactly the newest up to the cap; never below the cap, and only the oldest go, even when it fails half-way; the table only evolves as the walks allow |
| Audit.YoungStays | apps/api/src/platform/audit/audit.repository.ts:137-148 | A batch of the age gate takes no row that is young enough |
| Audit.PrefixDeleted | apps/api/src/platform/audit/audit.repository.ts:154-163 | A batch of the count gate is exactly the oldest rows |
| Audit.AuditRetentionJob.Sweep | apps/api/src/platform/audit/audit-retention.job.ts:60-81 | A sweep returns nothing exactly if another one is running or a call of the database threw; else it leaves the newest rows up to 200000 of those within 30 days; a second one changes nothing; the flag is reset even when it fails |
| Audit.AuditRetentionJob.Gates | apps/api/src/platform/audit/audit-retention.job.ts:63-73 | Both gates run while the flag is set, so that every other sweep is turned away |
| Redaction.IsSensitiveKey | apps/api/src/platform/audit/audit-redaction.ts:62-73 | The two loops return true exactly when a word of the key, or two neighbours together, is on the list |
| Redaction.RedactValue | apps/api/src/platform/audit/audit-redaction.ts:119-145 | The loop that fills a new object computes the recursive redaction the theorems are about |
| Redaction.ShapeCommandValue | apps/api/src/platform/audit/audit-redaction.ts:169-176 | The same for command lines |
| Redaction.NonInterference | apps/api/src/platform/audit/audit-redaction.ts:119-176 | Two values that differ only under sensitive keys, or in arguments and flag values of command lines, redact to identical outputs |
| Redaction.CommandNonInterference | apps/api/src/platform/audit/audit-redaction.ts:158-176 | The same for the value of a command key; the program name and flag names must agree |
| Redaction.OutputIsCovered | apps/api/src/platform/audit/audit-redaction.ts:119-145 | At every depth of the output, a sensitive key has nothing but the placeholder |
| Redaction.DeepestIs | apps/api/src/platform/audit/audit-redaction.ts:125-131 | The depth that the two theorems below bound is that of the deepest item of a list |
| Redaction.DeepestFieldIs | apps/api/src/platform/audit/audit-redaction.ts:132-141 | And of the deepest value of an object |
| Redaction.DepthIsLimited | apps/api/src/platform/audit/audit-redaction.ts:79-125 | Every output is at most 6 deep per list or object under a command key on the way down that is no command line, plus 6 and one level for a command line; with none of those that is the limit |
| Redaction.DepthIsAttained | apps/api/src/platform/audit/audit-redaction.ts:134-137 | That bound is attained for any number of such command keys, so the output has no fixed limit |
| Redaction.OneWordKey | apps/api/src/platform/audit/audit-redaction.ts:62-73 | A one-word lower-case key is sensitive exactly if it is listed |
| RedactionKeys.WordsOfCompound | apps/api/src/platform/audit/audit-redaction.ts:63-67 | A key made of any number of words, run together in camel case, in capitals or set apart by other characters, falls into exactly these words in small letters |
| RedactionKeys.SensitiveByItsWords | apps/api/src/platform/audit/audit-redaction.ts:62-73 | Such a key is sensitive exactly if one of its words, or two neighbours together, is one of the 21 words, which the statement lists |
| RedactionKeys.TwoWordKey | apps/api/src/platform/audit/audit-redaction.ts:62-73 | The keys `aB` and `a_b`, `a-b`, `a.b` are each sensitive exactly if `a`, `b` or `ab` is listed |
| RedactionKeys.SecretIsReplaced | apps/api/src/platform/audit/audit-redaction.ts:119-141 | A field with a sensitive key is written as `[redacted]`, whatever its value |
| RedactionKeys.SecretWords | apps/api/src/platform/audit/audit-redaction.ts:26-48 | The list of sensitive words is exactly this one |
| RedactionKeys.DottedCapital | apps/api/src/platform/audit/audit-redaction.ts:64-66 | A capital i with a dot ends its word, because its lower case is two characters |
| RedactionShapes.TextIsCut | apps/api/src/platform/audit/audit-redaction.ts:88-91 | A redacted text of more than 4000 units is cut there and marked; any other is kept |
| RedactionShapes.ListIsCut | apps/api/src/platform/audit/audit-redaction.ts:126-131 | The first 200 items of a list are redacted one by one, and one item more says in decimal how many are left out |
| RedactionShapes.DeepIsMarked | apps/api/src/platform/audit/audit-redaction.ts:125-144 | From the sixth level on a list or object is only marked; an unknown value is named above it |
| RedactionShapes.CommandKeys | apps/api/src/platform/audit/audit-redaction.ts:117 | Command keys are `argv`, `cmd`, `command` and `args` in small letters or capitals, and no others |
| RedactionShapes.CommandShape | apps/api/src/platform/audit/audit-redaction.ts:158-166 | Of a command line the program is kept as text, a flag without `=` as text, of a flag with one the part before the first `=`, and of any other argument nothing |
| RedactionShapes.CommandTextShape | apps/api/src/platform/audit/audit-redaction.ts:169-176 | A command line in one text is cut at its runs of white space, and the shapes of its parts are put together with single spaces |
| Passcode.PasscodeAttemptLimiter.RecordFailure | apps/api/src/platform/access-passcode/passcode-attempt-limiter.ts:40-49 | The count is the streak of wrong passcodes; from the fifth on each locks for five minutes; other clients are untouched |
| Passcode.PasscodeAttemptLimiter.Reset | apps/api/src/platform/access-passcode/passcode-attempt-limiter.ts:51-53 | A right passcode clears this client's record and no other |
| Passcode.PasscodeAttemptLimiter.LockedMeans | apps/api/src/platform/access-passcode/passcode-attempt-limiter.ts:35-38 | A positive number of seconds is reported exactly while the lock lasts |
| Passcode.PasscodeDoors.CanActivate | apps/api/src/platform/access-passcode/passcode.guard.ts:30-77 | A live session passes even while locked; a locked client's passcode is not compared; no passcode is no attempt; otherwise it is compared and recorded |
| Passcode.PresentedIs | apps/api/src/platform/access-passcode/passcode.guard.ts:86-93 | A token behind `Bearer ` is the passcode as it is, even an empty one, whatever else the request carries; without one it is the first value of the header unless that is absent or empty, and else the query's |
| Passcode.PasscodeDoors.Unlock | apps/api/src/platform/access-passcode/access.controller.ts:54-86 | While locked nothing is compared; otherwise exactly one comparison, with notes that carry the limiter's own count |
| Passcode.GuessBound | apps/api/src/platform/access-passcode/passcode-attempt-limiter.ts:40-49 | Over any interleaving of both doors, without a reset, at most 5 + T / 300000 wrong passcodes of a client are compared within T milliseconds |
| Passcode.Live | apps/api/src/platform/access-passcode/passcode-attempt-limiter.ts:40-49 | For every sequence of visits at both doors the history of comparisons is exactly what the visits call for, and for every client and every stretch of time without a reset at most 5 + T / 300000 wrong passcodes are compared |
| Passcode.Spacing | apps/api/src/platform/access-passcode/passcode-attempt-limiter.ts:40-49 | From the fifth on, each compared wrong passcode comes at least a lock time after the one before |
| Passcode.BoundIsTight | apps/api/src/platform/access-passcode/passcode-attempt-limiter.ts:40-49 | The bound is met by five guesses at once and one whenever a lock ends |
| Passcode.WaitingUnlocks | apps/api/src/platform/access-passcode/passcode-attempt-limiter.ts:35-38 | After the reported whole seconds the client is not locked; one second earlier it still is |
| EventBus.InProcessEventBus.PublishInTx | apps/api/src/platform/events/in-process-event-bus.ts:22-29 | Events go to the end of the buffer, and a microtask is queued exactly when none was |
| EventBus.InProcessEventBus.Subscribe | apps/api/src/platform/events/in-process-event-bus.ts:31-33 | A new subscriber is served from the next flush on |
| EventBus.InProcessEventBus.Flush | apps/api/src/platform/events/in-process-event-bus.ts:35-48 | Everything buffered is handed to every subscriber, also to those added meanwhile; what is published meanwhile waits for the next flush; as many reactions happen as there are subscribers in the end, each of their exceptions costs one line of the error log and stops nobody, and all they publish and subscribe is there |
| EventBus.InProcessEventBus.HandOut | apps/api/src/platform/events/in-process-event-bus.ts:41-47 | The loop over the subscribers: all of them have the batch at its end, whichever of them threw; each has reacted, and there is exactly one error line for each that threw |
| EventBus.InProcessEventBus.React | apps/api/src/platform/events/in-process-event-bus.ts:41-47 | What a subscriber publishes in the middle of a flush is behind everything published before, and the subscribers it adds join; nobody's delivery is disturbed; it says whether it threw |
| EventBus.Live | apps/api/src/platform/events/in-process-event-bus.ts:22-48 | In every reachable state each subscriber has exactly the published events since it joined, in order and once, up to the buffer; every batch that was published is in the history, in the order of the calls, and each due microtask handed out all that was published before it |
| ImageRef.TagRoundTrip | packages/contracts/src/image-spec.contract.ts:342-354 | Name and tag come back from the printed reference exactly when neither has `@`, the tag no slash, and the name no colon behind its last slash |
| ImageRef.DigestRoundTrip | packages/contracts/src/image-spec.contract.ts:342-354 | Name and digest come back exactly when the name has no `@` |
| ImageRef.PinningFixes | packages/contracts/src/image-spec.contract.ts:316-320 | A pinned tag reference parses to the same reference and digest, and pinning again changes nothing |
| ImageRef.DigestIs | packages/contracts/src/image-spec.contract.ts:298-302 | A digest is exactly `sha256:` and 64 hexadecimal digits in small letters |
| ImageRef.DefaultTag | packages/contracts/src/image-spec.contract.ts:342-349 | A reference is its own name with the tag `latest` exactly if it has no `@` and no colon behind its last slash |
| ImageRef.ReformatIsIdempotent | packages/contracts/src/image-spec.contract.ts:342-354 | Printing what was parsed is stable for references without `@` and for those with a proper digest |
| ImageRef.IdempotentWhen | packages/contracts/src/image-spec.contract.ts:342-354 | For any string it is stable exactly when there is no `@`, or a proper digest behind the first one, or, with an improper one: an `@` in it with a proper digest behind, or else a colon behind the last slash of the printed name and tag with no digest behind it |
| ImageRef.CanonicalIsFixed | packages/contracts/src/image-spec.contract.ts:342-354 | Exactly the canonical references print as themselves |
| ImageRef.ReformatUnstable | packages/contracts/src/image-spec.contract.ts:342-354 | A reference on which it is not stable |
| ImageRef.IsDerivedFrom | packages/contracts/src/image-spec.contract.ts:291-295 | The element-wise comparison decides the prefix relation, with an empty base never an ancestor |
| ImageRef.LineageIsPartialOrder | packages/contracts/src/image-spec.contract.ts:291-295 | On images with layers lineage is reflexive, antisymmetric and transitive |
| ImageRef.AncestorsAreComparable | packages/contracts/src/image-spec.contract.ts:291-295 | Two ancestors of one image are related, and equally long ones are equal, so the longest is unique |

## Left out

- File system, streams and child processes: a file is the bytes it delivers before it ends or fails; choosing the entries of an archive from git or a directory walk, and `walkDiskUsage`, are not modelled.
- Fractional, infinite or NaN sizes, modes and times of archive entries: they are integers here.
- The retention of a `tarReadable` stream object and back-pressure: only the yielded bytes are modelled.
- Cron and time-zone computation: a schedule is two functions that answer strictly later times.
- Rule fields without influence on the modelled properties (name, prompt, webhook, time-out, last trigger time), log pointers, error texts and summaries of runs.
- Notifier, audit rows, domain events and log lines of the scheduler: they come after the transactions and are not awaited.
- User edits during a sweep: they happen between sweeps, because the scheduler saves whole rows that it loaded earlier.
- The order of rows within a query batch of the scheduler: any order is allowed.
- An unreadable row in a query is left out of the batch; the database constraint names and their errors are not modelled.
- A thrown transaction has committed nothing; the driver gives no other kind.
- LogWriter.RuntimeLogWriter.Write: `close` and the degradation after I/O errors (`disable`) are not modelled, so the `closed` flag is never set; with it the branch of `beginRotate` for a missing stream never runs.
- File permissions and directory creation of the log.
- A chunk of the log reaches its file as a whole: a read or a crash in the middle of one, and a file left with half a line by that, are not modelled.
- LogReader.Lines: line breaks are LF, CR and CRLF; U+2028 and U+2029, which some versions of the platform's line reader also break at, are not, and the bytes are taken to be valid UTF-8.
- Files that rotate away between planning and reading of one export.
- The regular expression of a time stamp and `Date.parse`: a function from lines to stamps, any function.
- Regular expressions of `redactLogLine`: any function on text.
- Keys named `__proto__`, integer-like keys that an object reorders, invalid dates and cyclic details in the redactor.
- Cryptography, cookies and client address resolution behind the passcode: predicates and parameters.
- A clock that goes backwards: neither for the passcode limiter nor for the scheduler, whose slot theorems rest on it.
- The tables of the scheduler store whole seconds; times in the model are kept to the millisecond.
- SQL, migrations and dependency injection; `json_extract` on an audit detail is a field of the row.
- The audit export stream, DTO mapping and the timer that starts sweeps.
- Whether a transaction commits after it published: the event bus does not know, and delivers either way.
- Zod schemas, HTTP mapping, gateways, providers and the sandbox itself.
