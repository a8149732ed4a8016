# SysPilot, verified

SysPilot is a Linux diagnostics agent with a cloud collector.  This project models the parts of it
whose correctness is hardest to see from reading one function, and proves what they promise.  It is
self-contained: `dafny verify dfyconfig.toml` checks everything.

Where the program changes state in place, the model is a class or a method with loops, proved against
a specification function; the theorems are lemmas about those functions, over every input, every
interleaving or every run.

## What is modelled

- **Telemetry delivery.**  `Telemetry` has envelopes, message ids and the zero-padded spool file
  names.  `Spool` is the record directory and its sequence file.  `Acknowledgement` is the reply of
  the collector and the agent's check of it.  `Collector` is the ingestion transaction on the
  collector's tables, and `CollectorEffects` what a request adds to them and is answered.  `Delivery` puts them together as a step system: publish, read, send, serve,
  lose, repeat, acknowledge, crash, restart.  `SpoolRefinement` runs those steps on the directory,
  with its byte limit and files that get damaged.  `Order` and `AlertRows` say exactly when a
  publisher's records arrive in order and what each alert row then holds; `Quarantine` has the run in
  which an unreadable record is overtaken.
- **Leased queues and admission.**  `Leases` is the reasoning and the notification queue with crashing
  workers and a moving clock, `JobHistory` says whose result and whose failure a row shows;
  `Admission` is the per-identity semaphore table with eviction, under any
  interleaving of threads.
- **Forensics.**  `Classifier` is the death classifier; `Correlator` the bounded per-process store
  that has to agree with it.
- **Causal graph.**  `CausalGraph` is the root-cause search.
- **Streaming Markdown.**  `Streamer` is the incremental renderer against a renderer of whole texts;
  `MarkdownText` says what both print.
- **Code index.**  `VectorDb` is the binary format, `Chunker` the file chunker with its
  line rules in `ChunkRules`, `IndexUpdate` the incremental update.
- **Process connector.**  `Netlink` has both parsers of netlink message chains.
- **Alerts and configuration.**  `Alerts` is the alert store; `ConfigMigration` the versioned
  migration and rollback, call by file call.

## What the proofs found

Some properties one would expect do not hold of the code.  Each has a lemma with an input or a run
that shows it, and the exact condition under which the property holds.

- The Markdown renderer holds back three bytes, one too few for `### `.  Chunking is invisible if and
  only if no boundary falls between a line-initial `###` and the space after it
  (`Streamer.ChunkInvariance`, `Streamer.LookaheadTooShort`).
- A record that becomes unreadable in the spool can be overtaken by its successor, and a late request
  can still deliver it afterwards: the alert then goes back to an older state
  (`Quarantine.LateRequestRegresses`).  What is committed of a publisher stays a prefix exactly while
  no request is served that has a later record of it and lacks an earlier one in quarantine
  (`Order.PrefixExactly`); whether that can still happen is decided by what is in the spool and in
  batches at large, and a new record is always one more (`Order.BreakableExactly`,
  `Order.AppendBreaksExactly`).  A request keeps an alert row in publication order
  exactly when its last new alert for the row is later than what the row holds and its first no
  earlier than the one that began it, or says the same (`AlertRows.ServeTableExactly`).
- A failure report that arrives after its lease has ended puts the job back although another worker
  holds it (`Leases.StaleReportBreaksExclusion`).  That is dangerous exactly when the failure finds the
  job leased to another worker, retries are left, and the backoff is over before that lease is
  (`Leases.ReportBreaksExactly`), which stops at the fifth lease; a run is free of it exactly when no
  such report comes (`Leases.ExclusionExactly`).
- A job leased a hundred times without a report hits the check on `attempt_count`: every lease call
  that finds it unlocked at the head of the queue raises on it.  The jobs behind it are given out only
  by calls that run while another call has the row locked (`Leases.PoisonedHeadBlocks`), and it stays
  so unless a worker still has a lease of it to report (`Leases.ExhaustedExactly`).
- A full table of identities refuses a new one when every entry is in use, which does not mean that
  anybody holds a permit (`Admission.LookupRefusedExactly`, `Admission.RefusedWithoutPermits`).
- The collector accepts a batch with a repeated message id, but the agent does not accept the reply:
  it trusts a reply exactly when the ids of the batch are distinct (`Collector.ReplyTrustedExactly`).
- The spool's saturating capacity check is exact unless the limit is the largest u64
  (`Spool.CapacityCheckExact`).
- The correlator's timelines are bounded, its `insertion_order` queue is not
  (`Correlator.QueueUnbounded`): it is longer than the number of timelines by one entry for every
  leader exit, less the stale entries that evictions have dropped (`Correlator.QueueExactly`).
- The three busiest users of a resource are three edges, not three processes: a process with several
  edges crowds out the others (`CausalGraph.RepeatedEdgesCrowdOut`).  As many processes as possible
  are followed exactly when none repeats among the first three or there are no others
  (`CausalGraph.TopThreeExactly`).
- A vector index over the reader's limits is written without complaint and refused as corrupt by the
  next load (`VectorDb.OverLimitIsRefused`).  The embedding count is checked over all batches, so a
  surplus in one and a shortage in another pass, and texts get each other's vectors
  (`IndexUpdate.MiscountedBatchesPass`); once the total matches, each text has its own vector exactly
  when every batch was answered in full (`IndexUpdate.CountExactly`).  A file that cannot be read in
  one run is registered without chunks and stays so until it changes
  (`IndexUpdate.IncrementalIsRebuild`).  A save that fails after the rename has replaced the stored
  index although the call reports failure (`IndexUpdate.FailedRunChanges`).
- The daemon's netlink loop checks event bounds against the buffer, not the message, and
  `parse_frames` does so with error codes.  The two agree on a message exactly when it is complete
  (`Netlink.AgreementExactly`); an incomplete event makes the daemon report one that no message holds
  (`Netlink.IncompleteIsMisread`), and an error message without its code makes `parse_frames` take
  the length of the next message for the code (`Netlink.ShortErrorIsMisread`).
- Two alert rules can share a key exactly when one id is the other, or starts with the other and a
  colon (`Alerts.KeyClashExactly`); two processes of one rule that fire in the same nanosecond share an
  instance id, and an operator reaches only the first (`Alerts.SecondIsUnreachable`); a failed persist
  loses its transition (`Alerts.FailedPersistLosesReport`), and a pair has the status last reported
  throughout a run exactly when no call that changes it fails to persist (`Alerts.SyncExactly`).
- A crash between creating a configuration backup and finishing it leaves a partial backup that every
  later migration refuses (`ConfigMigration.PartialBackupBlocks`), and that a rollback installs
  (`ConfigMigration.TruncatedBackupIsInstalled`): a successful rollback restores the original exactly
  when the backup it picks holds it (`ConfigMigration.RollbackRestores`).

## Model

| member | source | states |
|---|---|---|
| `Telemetry.DecimalInjective` | src/distributed.rs:649 | two numbers with the same decimal form are equal |
| `Telemetry.MessageIdInjective` | src/distributed.rs:649 | message ids of one node differ whenever the observation time or the sequence does |
| `Telemetry.MessageIdReads` | src/distributed.rs:649 | a message id is the node, the time and the sequence number in decimal, with dashes between them |
| `Telemetry.PaddedOrder` | src/spool.rs:98-119 | zero-padded digits order and identify numbers that fit the width |
| `Telemetry.FileNameOrder` | src/spool.rs:98-119 | sorting record names byte by byte sorts all u64 sequence numbers, and no two share a name |
| `Telemetry.FileNameReads` | src/spool.rs:98-119 | a record's file name is its sequence number in exactly twenty digits and ".json" |
| `Telemetry.DecimalReads` | src/distributed.rs:649 | the decimal form of a number reads as that number, without leading zeros |
| `Spool.TotalRemove` | src/spool.rs:205-237 | removing one record lowers the byte total by exactly its size |
| `Spool.CapacityCheckExact` | src/spool.rs:98-119 | the saturating check keeps the true total within the limit, if and only if the limit is below the largest u64 or the true sum fits |
| `Spool.NamesToKeys` | src/spool.rs:121-163 | the first names in byte order are those of the smallest sequence numbers, in ascending order |
| `Spool.DiskSpool.NextSequence` | src/spool.rs:78-96 | hands out the successor of the stored number after storing it, and fails exactly on an unreadable or exhausted sequence file |
| `Spool.DiskSpool.Stats` | src/spool.rs:205-237 | the loop computes the saturated byte total, and fails exactly when a record has expired |
| `Spool.DiskSpool.Append` | src/spool.rs:98-119 | a record is accepted exactly when it is valid, its name is free, no record is too old and the total stays within the limit; a refused record leaves no trace, an accepted one is added and nothing else changes |
| `Spool.DiskSpool.SortedNames` | src/spool.rs:191-203 | all record names, each once, in byte order |
| `Spool.DiskSpool.Pending` | src/spool.rs:121-163 | returns the readable ones of the smallest sequence numbers in order, and moves exactly the unreadable ones among them to quarantine unchanged |
| `Spool.DiskSpool.ReadRecord` | src/spool.rs:121-163 | a record that does not decode to a valid envelope is quarantined, any other returned and kept |
| `Spool.DiskSpool.Acknowledge` | src/spool.rs:165-189 | removes a prefix of the batch, each file of it once, and stops at the first record already gone |
| `SpoolRefinement.RunRefines` | src/spool.rs:78-189 | in every run on the directory, with damaged files, the protocol goes through a run of its own, the files stand for its spool and the sequence file for its last number, and the bytes never exceed the limit |
| `SpoolRefinement.NoFileLost` | src/spool.rs:98-189 | in every such run an appended record has a file that reads as it or is damaged, or it is in quarantine or committed |
| `SpoolRefinement.AllowedIsEnabled` | src/spool.rs:78-189 | what the directory and the sequence file allow is a step the protocol allows |
| `SpoolRefinement.ReadRefines` | src/spool.rs:121-163 | the readable files among the picked ones are the batch the protocol reads, and quarantining the damaged ones is its step |
| `SpoolRefinement.ReadableIsBatch` | src/spool.rs:121-163 | the decoded records are the spooled ones that are not damaged, in order |
| `SpoolRefinement.WriteRefines` | src/spool.rs:98-119 | writing a record under its name adds it to the table of sequence numbers; the name is taken exactly when the number is |
| `SpoolRefinement.DrawNumber` | src/distributed.rs:641-645 | the number handed out is the one the protocol draws, or nothing happens |
| `SpoolRefinement.StoreRecord` | src/distributed.rs:646-661 | a record is written exactly when the protocol allows it under the limits |
| `SpoolRefinement.ReadBatch` | src/distributed.rs:707-716 | the batch read is the one the worker holds |
| `SpoolRefinement.RemoveBatch` | src/distributed.rs:736-740 | acknowledging a batch is the worker's removals one by one until it is idle |
| `SpoolRefinement.RemovedSoFar` | src/spool.rs:165-189 | after any number of removals that found their file, exactly those files are gone |
| `Acknowledgement.Validate` | src/distributed.rs:419-465 | accepts a reply if and only if every id is submitted and decided at most once, rejections have reasons, the highest sequence is that of the accepted records, the delay is bounded and something is decided |
| `Acknowledgement.DecideOne` | src/distributed.rs:425-443 | the running set refuses an id exactly when it is unknown or repeated |
| `Acknowledgement.NoDupByCount` | src/distributed.rs:424-443 | a list has no repetition if and only if its multiset has none |
| `Collector.Database.MaterializeAlert` | crates/syspilot-cloud/src/lib.rs:628-683 | upserts the alert row, keeping first observation, and queues one delivery per destination when firing (stated apart from the code in `CollectorEffects.IngestEffects`) |
| `Collector.Database.InsertEnvelope` | crates/syspilot-cloud/src/lib.rs:541-626 | inserts a fresh record with its alert and job, accepts an exact replay, reports id and sequence conflicts |
| `Collector.Database.IngestBatch` | crates/syspilot-cloud/src/lib.rs:370-471 | the request handler's loop: commits all of a batch and replies, or restores every table; what it adds and answers is stated by `CollectorEffects.IngestEffects` and `CollectorEffects.AnswerExactly` |
| `Collector.ProcessSettles` | crates/syspilot-cloud/src/lib.rs:421-455 | after a batch each accepted record is stored with its content, each rejected one contradicted by a stored row |
| `Collector.SettledReplay` | crates/syspilot-cloud/src/lib.rs:541-626 | a settled record gets the same decision again and changes no table |
| `Collector.IngestSound` | crates/syspilot-cloud/src/lib.rs:370-471 | every request keeps rows unique per id and per sequence, keeps the highest sequence equal to the maximum stored, and loses nothing |
| `Collector.ServeSound` | crates/syspilot-cloud/src/lib.rs:685-730 | the same over every series of requests from any nodes |
| `Collector.ReplayIsNoOp` | crates/syspilot-cloud/src/lib.rs:370-471 | exactly-once effects: a batch that committed, ingested again at any later point of any run, gets the same decisions and leaves every table as it was |
| `Collector.ReplyPartitions` | crates/syspilot-cloud/src/lib.rs:421-470 | accepted and rejected ids together are the batch's ids, each as often as submitted |
| `Collector.ReplyTrustedExactly` | crates/syspilot-cloud/src/lib.rs:421-470 | the reply to a non-empty batch passes the agent's check if and only if the ids are distinct |
| `CollectorEffects.IngestEffects` | crates/syspilot-cloud/src/lib.rs:421-470 | a request that succeeds queues exactly, in batch order, one delivery per destination for each record stored anew that is an alert in state "firing", and adds exactly the jobs of the records stored anew that are no health records; one that fails changes nothing |
| `CollectorEffects.ServeDeliveries` | crates/syspilot-cloud/src/lib.rs:669-680 | over every series of requests the deliveries are those of the requests, one after the other |
| `CollectorEffects.ServeJobs` | crates/syspilot-cloud/src/lib.rs:577-590 | after every series of requests the jobs are those of the stored records that are no health records |
| `CollectorEffects.FreshExactly` | crates/syspilot-cloud/src/lib.rs:541-576 | a record is stored anew, as read off the tables before and after, exactly when its id and its sequence number are free when its turn comes |
| `CollectorEffects.InsertExactly` | crates/syspilot-cloud/src/lib.rs:541-626 | one record is refused exactly when its number, its time or its alert cannot be stored; it conflicts exactly when its id has other content, or its id is free and its number is not |
| `CollectorEffects.AnswerExactly` | crates/syspilot-cloud/src/lib.rs:370-471 | the answer: each error exactly under its condition; otherwise the accepted ids in order, the rejected ones in order with the reason of their clash, the highest accepted number, and no delay |
| `Delivery.RunKeepsInv` | src/distributed.rs:687-807 | the joint invariant of spool, worker, network and tables holds in every run |
| `Delivery.NoLoss` | src/spool.rs:98-189 | in every run each appended record is in the spool, in quarantine, or committed with the same content |
| `Delivery.RemovedOnlyAfterCommit` | src/distributed.rs:718-748 | whatever acknowledgement removes from the spool is committed at the collector |
| `Delivery.SequencesUnique` | src/spool.rs:78-96 | no sequence number and no message id is used twice, across crashes and restarts |
| `Delivery.NeverAConflict` | crates/syspilot-cloud/src/lib.rs:421-470 | every request this agent ever sent, served at any time, fails without effect or is accepted whole and trusted |
| `Delivery.IngestClosed` | crates/syspilot-cloud/src/lib.rs:370-471 | serving a batch that skips nothing undelivered commits exactly that batch and keeps publication order |
| `Delivery.PrefixIsOrder` | crates/syspilot-cloud/src/lib.rs:370-471 | the committed records of a publisher are a prefix of what it appended if and only if none is committed before an earlier one |
| `Delivery.CommittedIsPrefix` | src/distributed.rs:687-807 | they are a prefix in every run in which the quarantined records of that publisher, if any, are committed |
| `Delivery.OnlyQuarantinedMissing` | src/spool.rs:121-163 | nothing but a quarantined record can be missing before a committed one of the same publisher |
| `Delivery.AlertTableIsReplay` | crates/syspilot-cloud/src/lib.rs:628-683 | while no alert is in quarantine, the alert table is the replay of the committed alerts in publication order (exact condition: `AlertRows.TableExactly`) |
| `Delivery.AlertsNeverRegress` | crates/syspilot-cloud/src/lib.rs:628-683 | while no alert is in quarantine, every step only adds to the end of the list of committed alerts (for the rows: `AlertRows.RowMovesBackExactly`) |
| `Order.ServeOrderExactly` | crates/syspilot-cloud/src/lib.rs:370-471 | from a state in which a publisher's committed records are a prefix, a request keeps them one if and only if it fails, or has no record of the publisher without an earlier one that is in quarantine and not committed |
| `Order.StepOrderExactly` | src/distributed.rs:687-807 | every other step keeps the order, so a step breaks it if and only if it serves such a request |
| `Order.PrefixExactly` | src/spool.rs:121-163 | in every run the committed records of a publisher are a prefix at every step, if and only if no request of the run overtakes a quarantined record |
| `Order.BreakableExactly` | src/spool.rs:121-163 | without further unreadable reads or appends of the publisher, some continuation breaks the prefix if and only if an uncommitted record of it is in quarantine and a later one is in the spool or in a batch at large without it |
| `Order.AppendBreaksExactly` | src/spool.rs:121-163 | and if the publisher can append another record, some continuation without further unreadable reads breaks the prefix if and only if an uncommitted record of it is in quarantine |
| `Order.CommittedQuarantineIsSafe` | src/distributed.rs:687-807 | if all quarantined records of the publisher are committed, no continuation without further unreadable reads breaks the prefix |
| `AlertRows.TableByRows` | crates/syspilot-cloud/src/lib.rs:628-683 | the table is the replay in publication order if and only if each row has the payload of the latest committed alert of its instance and the rule and first time of the earliest |
| `AlertRows.ServedRow` | crates/syspilot-cloud/src/lib.rs:628-683 | what a request leaves in a row: payload, state and time of its last new alert for it, rule and first time of the first one if the row is new |
| `AlertRows.RowExactly` | crates/syspilot-cloud/src/lib.rs:650-668 | the row is as in publication order afterwards if and only if it is new, or the last new alert is later than what it holds (or the same) and the first new one no earlier than what began it (or alike) |
| `AlertRows.ServeTableExactly` | crates/syspilot-cloud/src/lib.rs:628-683 | from a table in publication order, a request that succeeds keeps it so if and only if it keeps every row; one that fails changes nothing |
| `AlertRows.TableExactly` | crates/syspilot-cloud/src/lib.rs:628-683 | in every run the table is the replay in publication order at every step, if and only if no request of the run takes a row out of that order |
| `AlertRows.RowMovesBackExactly` | crates/syspilot-cloud/src/lib.rs:650-668 | a row goes back to an older alert if and only if the request has a new alert for it and no later one |
| `AlertRows.LaterAlertsKeepRows` | crates/syspilot-cloud/src/lib.rs:628-683 | a batch whose new alerts are all later than the committed ones of the same instance keeps every row |
| `AlertRows.NoAlertQuarantinedKeepsRows` | crates/syspilot-cloud/src/lib.rs:628-683 | without an alert in quarantine every request keeps every row |
| `Quarantine.QuarantineBreaksPrefix` | src/spool.rs:121-163 | a run in which an unreadable record is overtaken by its successor |
| `Quarantine.LateRequestRegresses` | src/distributed.rs:718-748 | the same run continued: a late request commits the older alert last and the row moves back |
| `Leases.QueueAccounts` | deploy/fleet/postgres/002_cloud_workloads.sql:116-181 | in every run the attempt count is the number of leases granted, a completed job has an object as its result, and a job fails only after ten leases |
| `Leases.TerminalIsFinal` | deploy/fleet/postgres/002_cloud_workloads.sql:146-181 | a completed or failed row never changes again, whatever is reported |
| `Leases.NotBeforeAvailable` | deploy/fleet/postgres/002_cloud_workloads.sql:122-129 | in every run a job put back is neither leased nor changed before its backoff is over |
| `Leases.BackoffRange` | deploy/fleet/postgres/002_cloud_workloads.sql:176-177 | the backoff starts at two seconds and doubles up to 256, so the limit of 300 is never reached |
| `Leases.LeaseExclusion` | deploy/fleet/postgres/002_cloud_workloads.sql:116-143 | if reports come before the lease ends or not at all, no job has two live leases, under any interleaving of workers, clock and crashes |
| `Leases.DangerExactly` | deploy/fleet/postgres/002_cloud_workloads.sql:116-143 | from any reachable state with at most one live lease of a job, ticks and leases alone can lead to two if and only if the job waits with a time before its live lease ends |
| `Leases.ReportBreaksExactly` | deploy/fleet/postgres/002_cloud_workloads.sql:166-181 | after a report, ticks and leases alone can lead to two live leases of its job if and only if the job was waiting like that already, or the report is a failure, the row is leased, another lease of it is live, retries are left and the backoff ends before that lease |
| `Leases.FifthLeaseIsSafe` | deploy/fleet/postgres/002_cloud_workloads.sql:176-177 | from the fifth lease on no report can do that |
| `Leases.ExclusionExactly` | deploy/fleet/postgres/002_cloud_workloads.sql:116-181 | in every run no state endangers a job in this way, if and only if no report of the run puts its job back under a live lease |
| `Leases.TimelyIsHarmless` | deploy/fleet/postgres/002_cloud_workloads.sql:116-181 | reports that come before their lease ends never do |
| `Leases.ResultsMatchCompletion` | deploy/fleet/postgres/002_cloud_workloads.sql:146-164 | if reports come before the lease ends or not at all, a job has a result row if and only if it is completed |
| `Leases.StrayExactly` | deploy/fleet/postgres/002_cloud_workloads.sql:146-164 | a step ends the agreement of results and completed jobs if and only if it reports a result for a job that is neither running nor completed |
| `Leases.ResultsExactly` | deploy/fleet/postgres/002_cloud_workloads.sql:146-164 | in every run results belong to completed jobs at every step if and only if no such report comes |
| `Leases.StaleReportBreaksExclusion` | deploy/fleet/postgres/002_cloud_workloads.sql:166-181 | a run in which a late failure report leads to two live leases of one job |
| `Leases.CrashLoop` | crates/syspilot-cloud/src/bin/reasoning_worker.rs:87-117 | a job whose workers always die is leased again up to the attempt limit |
| `Leases.PoisonedHeadBlocks` | deploy/fleet/postgres/002_cloud_workloads.sql:31-47 | a run after which the head of the queue is exhausted: every call that finds it unlocked raises and changes nothing, and the job behind it is leasable exactly by calls that find the head locked |
| `Leases.PickedExactly` | deploy/fleet/postgres/002_cloud_workloads.sql:122-131 | a row is picked if and only if it is unlocked and eligible and every eligible row before it is locked |
| `Leases.LeaseCallExactly` | deploy/fleet/postgres/002_cloud_workloads.sql:116-143 | in every reachable state a call finds a row unless none is offered, and raises if and only if the row it picks was leased a hundred times |
| `Leases.ExhaustedStays` | deploy/fleet/postgres/002_cloud_workloads.sql:31-47 | a row at the limit without a lease left to report stays as it is in every continuation |
| `Leases.ExhaustedExactly` | deploy/fleet/postgres/002_cloud_workloads.sql:31-47 | a row at the limit can ever change again if and only if a worker still has a lease of it to report |
| `Leases.BehindExhausted` | deploy/fleet/postgres/002_cloud_workloads.sql:116-143 | from then on every call that picks the row raises and changes nothing, and a job behind it is given out only while the row is locked |
| `Leases.JobTable.Lease` | deploy/fleet/postgres/002_cloud_workloads.sql:116-143 | picks the first unlocked available row by time and id, counts the attempt and leases it for thirty seconds; or none exactly when there is none; or raises on a row leased a hundred times |
| `Leases.JobTable.Complete` | deploy/fleet/postgres/002_cloud_workloads.sql:146-164 | stores exactly the given object as the result of a known job, and completes the row if it is running, clearing lease and failure code; everything else stays |
| `Leases.JobTable.Fail` | deploy/fleet/postgres/005_worker_delivery_hardening.sql:45-56 | puts a running job back with its backoff, or fails it for good from the tenth attempt, with the first hundred characters of the code; everything else stays |
| `JobHistory.ResultIsLastReported` | deploy/fleet/postgres/002_cloud_workloads.sql:146-164 | in every run the stored result of a reasoning job is the last one any worker reported for it, and notification jobs have none |
| `JobHistory.CodeIsLastReported` | deploy/fleet/postgres/002_cloud_workloads.sql:166-181 | in every run the failure code of a job is that of the last report that found it leased, and is cleared by a success |
| `JobHistory.ResponseExactly` | crates/syspilot-cloud/src/bin/reasoning_worker.rs:175-191 | a response is a success exactly when it is a 2xx answer with an object; each failure code says exactly which kind of response it was |
| `JobHistory.OneStep` | deploy/fleet/postgres/002_cloud_workloads.sql:146-181 | no step but a report about a job changes its result or its failure code |
| `Admission.RunKeepsInv` | crates/syspilot-cloud/src/lib.rs:232-276 | every live permit refers to the semaphore the table lists, and permits and budgets add up, under every interleaving |
| `Admission.AdmissionBounds` | crates/syspilot-cloud/src/lib.rs:232-276 | no identity holds more than its share, all together no more than the capacity, the table no more than its bound |
| `Admission.ConfiguredBounds` | crates/syspilot-cloud/src/lib.rs:245-252 | as configured, no identity holds more than a quarter of the capacity (or one permit), and the table lists at most four identities for every permit |
| `Admission.RefusalsAreHonest` | crates/syspilot-cloud/src/lib.rs:269-274 | past the lookup, a request is refused exactly when its identity, or everybody together, really holds all permits |
| `Admission.LookupRefusedExactly` | crates/syspilot-cloud/src/lib.rs:256-263 | at the lookup a request is refused if and only if its identity is unlisted, the table is full and retain removes nothing; with a full retain pass that means all entries are in use |
| `Admission.RefusedWithoutPermits` | crates/syspilot-cloud/src/lib.rs:256-263 | a schedule after which a request is refused although nobody holds any permit |
| `Admission.QuietMeansFull` | crates/syspilot-cloud/src/lib.rs:254-276 | when all requests are over, every permit is back |
| `Admission.EvictionKeepsInv` | crates/syspilot-cloud/src/lib.rs:257-260 | evicting idle entries leaves nobody with a semaphore outside the table |
| `Admission.Admission.RetainInUse` | crates/syspilot-cloud/src/lib.rs:258-260 | the retain loop removes exactly the entries nobody else refers to |
| `Admission.Admission.LookUp` | crates/syspilot-cloud/src/lib.rs:255-268 | finds or creates the entry under the lock, evicting only when the table is full |
| `Admission.Admission.TakeIdentityPermit` | crates/syspilot-cloud/src/lib.rs:269 | takes one permit of the identity, or refuses when none is left |
| `Admission.Admission.TakeGlobalPermit` | crates/syspilot-cloud/src/lib.rs:270-274 | takes one global permit, or gives the identity permit back |
| `Admission.Admission.Release` | crates/syspilot-cloud/src/lib.rs:239-242 | gives both permits back |
| `Classifier.ClassifyOwn` | src/forensics/classifier.rs:13-139 | the verdict on a process depends only on that process's own events, in order |
| `Classifier.FindLast` | src/forensics/classifier.rs:19-29 | finds the latest event with a property, and finds one if and only if there is one |
| `Classifier.CgroupOomExactly` | src/forensics/classifier.rs:68-98 | a cgroup out-of-memory verdict is given exactly for a SIGKILL whose last out-of-memory record, at most five seconds old, names the process's own cgroup |
| `Classifier.LossCapsConfidence` | src/forensics/classifier.rs:89-138 | lost telemetry caps the confidence at medium and is on the trail if and only if something was lost |
| `Classifier.ReportExactly` | src/forensics/classifier.rs:13-139 | every report by the records it rests on: each cause exactly under its conditions, the sender of the last matching signal at most five seconds old, the confidence of each cause, and the trail entry by entry |
| `Classifier.OneCauseFits` | src/forensics/classifier.rs:85-124 | those conditions leave no choice: the same records admit one cause |
| `Classifier.BasisOf` | src/forensics/classifier.rs:19-84 | the death, the signal and the out-of-memory record are the last ones of their kind for the process |
| `Classifier.FindLastAt` | src/forensics/classifier.rs:19-29 | the search finds the last event with a property |
| `Classifier.DispositionExactly` | src/forensics/events.rs:63-77 | the wait status field by field: seven bits of signal, one of core, eight of exit status, the rest ignored |
| `Correlator.EvictFrees` | src/forensics/correlator.rs:105-116 | because every live process is queued, the eviction loop frees exactly one timeline |
| `Correlator.RunBounded` | src/forensics/correlator.rs:54-116 | in every stream the timelines and their events stay within bounds and hold only own events, and a leader exit is always answered by a report |
| `Correlator.QueueUnbounded` | src/forensics/correlator.rs:26-33 | the eviction queue can be made as long as one likes while no process is tracked |
| `Correlator.QueueExactly` | src/forensics/correlator.rs:54-116 | in every stream the queue is the processes that started a timeline, in order, without those that evictions took off the front; it is longer than the number of timelines by the leader exits, less the stale entries dropped |
| `Correlator.QueueGrowsExactly` | src/forensics/correlator.rs:70-86 | one event lengthens the queue, by one entry, if and only if it starts a timeline while there is room |
| `Correlator.QueueStep` | src/forensics/correlator.rs:54-116 | what one event does to the queue and to the number of timelines |
| `Correlator.EvictDrops` | src/forensics/correlator.rs:105-116 | an eviction takes the stale entries in front and the first live one off the queue |
| `Correlator.TimelineIsRecentEvents` | src/forensics/correlator.rs:54-103 | an unbroken timeline is the last events of that process in the whole stream, with the loss count at its first |
| `Correlator.DeathReportOfRecent` | src/forensics/correlator.rs:54-103 | a death report is the classifier's verdict on those events |
| `Correlator.DeathReportOfStream` | src/forensics/correlator.rs:54-103 | with at most the maximum of events it is the verdict on the whole interleaved stream, incomplete exactly when a loss was recorded since the first event |
| `Correlator.FirstDeathOfFewProcesses` | src/forensics/correlator.rs:54-103 | the same under a condition readable off the stream: few processes and no earlier death |
| `Correlator.EpochsDiffer` | src/forensics/correlator.rs:54-103 | the wrapping loss epochs differ if and only if the losses in between are not a multiple of 2^64 |
| `Correlator.Correlator.IngestEvent` | src/forensics/correlator.rs:54-103 | the in-place store takes exactly the step the theorems are about |
| `Correlator.Correlator.MakeRoom` | src/forensics/correlator.rs:105-116 | the eviction loop, against its specification |
| `CausalGraph.TraceRootCause` | src/causal_engine.rs:603-675 | returns exactly the ids reachable from the start, the start first, none twice, in order of shortest distance, ids of one distance in the order in which they were led to; whatever a process on the path is linked to is on it; nothing for an unknown start |
| `CausalGraph.ProcessLeadsExactly` | src/causal_engine.rs:615-647 | a process leads to a node exactly along an edge for waiting, parentage or contention, or one for reading or writing if the node is anomalous or another anomalous process touches it |
| `CausalGraph.TargetsExactly` | src/causal_engine.rs:615-647 | and it leads there in the order of those edges |
| `CausalGraph.ResourceLeadsExactly` | src/causal_engine.rs:649-671 | a resource leads to the processes of the three I/O edges that rank first by the sum of read and write rate, then by position |
| `CausalGraph.UsersExactly` | src/causal_engine.rs:651-663 | the users of a resource are those of its reading and writing edges from known processes, with the sum of both rates |
| `CausalGraph.InsertRanks` | src/causal_engine.rs:664-665 | inserting by rate keeps the ranking |
| `CausalGraph.SuccessorsAreBusiest` | src/causal_engine.rs:649-671 | no user a resource does not lead to is faster than one it leads to |
| `CausalGraph.TopThreeProcesses` | src/causal_engine.rs:649-671 | with one edge per process, a resource leads to its three fastest processes, none twice, or to all |
| `CausalGraph.TopThreeExactly` | src/causal_engine.rs:649-671 | a resource leads to three distinct processes, or to all, if and only if none repeats among the first three users by rate, or no other is left; no process left out is faster than one led to |
| `CausalGraph.RepeatedEdgesCrowdOut` | src/causal_engine.rs:649-671 | a graph in which one process takes all three places |
| `CausalGraph.ByRateSorts` | src/causal_engine.rs:651-665 | users sorted by rate are a descending permutation |
| `CausalGraph.ByRateStable` | src/causal_engine.rs:651-665 | and users of one rate stay in edge order |
| `CausalGraph.SearchFinds` | src/causal_engine.rs:603-675 | when everything met is expanded, what was met is what is reachable |
| `CausalGraph.SearchNearestFirst` | src/causal_engine.rs:603-675 | and it was met nearest first |
| `CausalGraph.WalksEndInside` | src/causal_engine.rs:603-675 | every walk from the start ends at an id met at no greater depth |
| `Streamer.ChunkInvariance` | src/ui/streamer.rs:117-156 | feeding pieces renders as the whole text does, if and only if no boundary separates a line-initial `###` from its space |
| `Streamer.SinglePiece` | src/ui/streamer.rs:224-232 | a text in one piece is always rendered as the reference renderer does |
| `Streamer.LookaheadTooShort` | src/ui/streamer.rs:122 | `###` cut from its space is not rendered as a header |
| `Streamer.TokenDecided` | src/ui/streamer.rs:33-115 | three buffered bytes decide every token except that one |
| `Streamer.DrainThenLex` | src/ui/streamer.rs:117-156 | draining a prefix and lexing the rest is lexing the whole |
| `Streamer.CutHeader` | src/ui/streamer.rs:117-156 | at a cut header the decisions part after a common prefix |
| `Streamer.StreamDecided` | src/ui/streamer.rs:117-194 | the incremental decisions are those of the whole text exactly when no header is cut |
| `Streamer.HeaderVisible` | src/ui/streamer.rs:33-115 | the two ways of deciding a cut header look different on the terminal |
| `Streamer.MdStreamer.ProcessToken` | src/ui/streamer.rs:33-115 | matches one token, emits its text, toggles its mode (what is emitted: `MarkdownText.PaintedIsText`) |
| `Streamer.MdStreamer.Advance` | src/ui/streamer.rs:117-156 | one turn of the rendering loops: a token or a single character |
| `Streamer.MdStreamer.RenderChunk` | src/ui/streamer.rs:117-156 | appends a piece and drains the buffer down to the look-ahead |
| `Streamer.MdStreamer.Finish` | src/ui/streamer.rs:158-194 | renders what is left and resets |
| `Streamer.RenderChunks` | src/ui/streamer.rs:224-232 | the pieces rendered one after the other, equal to the whole text's rendering under the exact condition (what that is: `MarkdownText.PrintedText`) |
| `MarkdownText.PaintedIsText` | src/ui/streamer.rs:33-194 | the renderer of whole texts prints what a renderer prints that only counts toggles: the first, third, ... of a kind switches its style on, the others off, and a line end resets and restores the open blocks |
| `MarkdownText.PrintedText` | src/ui/streamer.rs:224-232 | pieces print that, if and only if no boundary cuts a header |
| `MarkdownText.RecogniseExactly` | src/ui/streamer.rs:33-115 | the token at the front of a text is the first of the known ones that the text starts with |
| `MarkdownText.EnclosedText` | src/ui/streamer.rs:36-108 | text between two bold, code, fence or math delimiters is printed in its style, switched on before and off after it |
| `MarkdownText.LedInText` | src/ui/streamer.rs:70-92 | headers keep their marks and are printed bold and bright, list marks become bullets |
| `MarkdownText.StrippedExactly` | src/ui/streamer.rs:117-194 | without escape sequences the output is the text without its toggles and with bullets for list marks, if and only if the text has no escape character |
| `VectorDb.RoundTripExactly` | src/codebase.rs:83-161 | decoding what was written, followed by any bytes, gives the same database and leaves those bytes, if and only if it is within the reader's limits |
| `VectorDb.AcceptedIsEncoding` | src/codebase.rs:88-161 | every accepted input with valid UTF-8 strings is the encoding of its decoded value followed by what was left unread |
| `VectorDb.OverLimitIsRefused` | src/codebase.rs:192-245 | a database whose lengths fit 32 bits is readable after writing if and only if it is within the limits |
| `VectorDb.GetPutDb` | src/codebase.rs:192-231 | reading inverts writing, for any limits the database is within |
| `VectorDb.PutGetDb` | src/codebase.rs:88-161 | writing inverts reading, and what was read is within the limits |
| `VectorDb.PutDbParts` | src/codebase.rs:208-231 | the layout of the file: magic, two strings, a count and the registry, a count and the chunks |
| `VectorDb.PutChunkParts` | src/codebase.rs:221-230 | the layout of a chunk: two strings, two line numbers, a count and the embedding |
| `VectorDb.MagicText` | src/codebase.rs:86 | the file starts with `SYSPILOT_VDB_3` |
| `VectorDb.LimitsExactly` | src/codebase.rs:57-161 | the reader's limits in numbers |
| `VectorDb.ByteWriter.WriteText` | src/codebase.rs:51-55 | a 32-bit length and the bytes |
| `VectorDb.ByteWriter.WriteFiles` | src/codebase.rs:213-218 | the registry loop |
| `VectorDb.ByteWriter.WriteChunks` | src/codebase.rs:220-230 | the chunk loop with its embeddings |
| `VectorDb.ByteWriter.WriteDb` | src/codebase.rs:208-231 | the writer's sequence of writes produces the encoding the theorems are about |
| `VectorDb.ByteReader.ReadText` | src/codebase.rs:57-70 | a string within the limit or an error |
| `VectorDb.ByteReader.ReadFiles` | src/codebase.rs:102-118 | the registry loop of the reader |
| `VectorDb.ByteReader.ReadEmbedding` | src/codebase.rs:131-145 | all bytes of an embedding, then word by word |
| `VectorDb.ByteReader.ReadChunks` | src/codebase.rs:120-153 | the chunk loop of the reader |
| `VectorDb.ByteReader.ReadDb` | src/codebase.rs:88-161 | the reader accepts, rejects and leaves unread exactly what the specification does |
| `VectorDb.WordsFromBytes` | src/codebase.rs:139-145 | reading words from one block is reading them one at a time |
| `VectorDb.LeFromBytes` | src/codebase.rs:57-81 | little-endian reading byte by byte is the value of the block |
| `Chunker.Split` | src/codebase.rs:325-424 | the strategy loops cut the file into contiguous pieces, one for every definition, root definition or heading, and nowhere else |
| `Chunker.PostProcess` | src/codebase.rs:276-301 | merged pieces partition the file, start at breaks, have at least eight lines except possibly the last, and end at the first break after eight lines |
| `Chunker.Windows` | src/codebase.rs:426-443 | the windows start every thirty lines and stop at the first that reaches the end |
| `Chunker.ChunkFile` | src/codebase.rs:303-443 | the dispatch by extension and strategy, with nothing for large, unreadable, binary or empty files (`ChunkRules.NothingExactly`) |
| `Chunker.ChunkingIsDetermined` | src/codebase.rs:276-301 | there is only one way to cut a file like that |
| `Chunker.PartitionJoin` | src/codebase.rs:276-301 | the contents joined by newlines are the file's lines joined by newlines |
| `Chunker.LineInOneChunk` | src/codebase.rs:276-301 | every line is in exactly one chunk |
| `Chunker.WindowsCover` | src/codebase.rs:426-443 | windows cover every line, consecutive ones share exactly ten, and their number is given |
| `Chunker.LinesJoin` | src/codebase.rs:315-318 | text without carriage returns is its lines joined, apart from a final newline |
| `ChunkRules.LinesExactly` | src/codebase.rs:315-318 | a text is its lines and their ends, a newline or a return and a newline, nothing lost |
| `ChunkRules.TrimExactly` | src/codebase.rs:332-333 | trimming takes away exactly the white space at both ends |
| `ChunkRules.DepthExactly` | src/codebase.rs:329-368 | the brace depth before a line is the largest surplus of opening braces over lines right before it |
| `ChunkRules.BreaksExactly` | src/codebase.rs:325-424 | pieces break exactly before definitions no deeper than one brace, before functions and classes that are not indented, and before headings |
| `ChunkRules.DefinitionExactly` | src/codebase.rs:335-346 | the ten beginnings of a definition |
| `ChunkRules.LanguageExactly` | src/codebase.rs:320-427 | the strategies by file extension |
| `ChunkRules.NothingExactly` | src/codebase.rs:303-319 | nothing is chunked exactly of a file over a mebibyte, unreadable, with a null character, or empty |
| `ChunkRules.SizesExactly` | src/codebase.rs:276-301 | merged pieces of eight lines and more, windows of forty lines every thirty |
| `IndexUpdate.VectorIndex.UpdateIndex` | src/codebase.rs:618-742 | one call, with its loops and early returns, against its specification |
| `IndexUpdate.IncrementalIsRebuild` | src/codebase.rs:618-742 | after any series of runs, a successful run that found a new or changed file saves the registry of a forced rebuild, and for each path the same chunks if and only if the file could be read when it was indexed last or has none; the next call loads it exactly when it is within the limits |
| `IndexUpdate.RunsKeepSound` | src/codebase.rs:618-742 | in every series of runs a readable stored index has for each registered file exactly its own chunks, or none if it could not be read when it was indexed last |
| `IndexUpdate.RefreshedIsConsistent` | src/codebase.rs:661-734 | what a run saves registers exactly the files found, with their chunks |
| `IndexUpdate.NothingToIndex` | src/codebase.rs:679-685 | a run with nothing to index succeeds, writes nothing, and every file it found has its chunks already, as far as it could be read |
| `IndexUpdate.FailedRunChanges` | src/codebase.rs:618-742 | a failed run changes the stored bytes if and only if it moved a corrupt index away or failed after the rename |
| `IndexUpdate.SucceedsExactly` | src/codebase.rs:618-742 | a run succeeds exactly when it can start and then every file is up to date, or the vectors are as many as the new chunks and the save goes through; it starts empty when forced, without an index, or with one of another embedding source |
| `IndexUpdate.SavedChunks` | src/codebase.rs:688-734 | what a run saves has for each file one chunk per piece, in order, with the piece's text and lines and the vector of that text |
| `IndexUpdate.UpToDateExactly` | src/codebase.rs:652-676 | a file is indexed again exactly when the registry's last entry for its path differs in time or size |
| `IndexUpdate.SavedLoads` | src/codebase.rs:163-245 | bytes written load as the same index, or as corrupt when over the limits |
| `IndexUpdate.FaithfulVectors` | src/codebase.rs:710-734 | if no batch is answered with too many vectors, the total matches only if every text got its own |
| `IndexUpdate.CountExactly` | src/codebase.rs:710-734 | for a service that answers in order, with a surplus that is the vector of none of the texts: once the total matches, every text got its own vector if and only if each batch was answered in full |
| `IndexUpdate.MiscountedBatchesPass` | src/codebase.rs:713-719 | answers that are one too many and one too few pass the count |
| `IndexUpdate.FetchAll` | src/codebase.rs:713-718 | the batching loop |
| `Netlink.ParseFrames` | src/netlink.rs:102-136 | the parser's loop ends on every buffer and yields the specified frames |
| `Netlink.Listener.Receive` | src/daemon.rs:201-381 | the daemon's loop ends on every buffer, keeps the process tree and publishes the specified events, or stops at a kernel error |
| `Netlink.Listener.Publish` | src/daemon.rs:274-371 | the tree update and the event of one frame |
| `Netlink.ChainParses` | src/netlink.rs:102-158 | on every chain of aligned messages the parser yields the messages' frames, one after the other; an error message without its code takes the length of the next message for it |
| `Netlink.ChainListens` | src/daemon.rs:201-381 | on every chain of complete messages the daemon emits the same events up to the first kernel error, at which it stops |
| `Netlink.AgreementExactly` | src/daemon.rs:241-376 | the two agree on a message in front of every complete chain if and only if the message is complete: it holds its error code, or the event it declares |
| `Netlink.IncompleteIsMisread` | src/daemon.rs:241-376 | after an incomplete process-event message the daemon reports an event where the parser reports none |
| `Netlink.ShortErrorIsMisread` | src/netlink.rs:117-125 | after an error message without its code the daemon reports a fixed code and the parser the length of the next message |
| `Netlink.TreeHoldsTheLiving` | src/daemon.rs:274-371 | a process is in the tree exactly when the last event about it is not its exit, or it was there and no event is about it |
| `Netlink.FrameExactly` | src/netlink.rs:138-158 | the frame of a message by the positions of its fields |
| `Netlink.EventsExactly` | src/daemon.rs:274-371 | one event per frame, in order: a fork with parent and name, an exec with its name, an exit with its codes and the name last announced |
| `Netlink.TreeExactly` | src/daemon.rs:274-371 | the tree holds for each process the name last announced and the parent it came from |
| `Alerts.AlertStore.Apply` | src/alert.rs:103-157 | one process event: the record, the published transition, or nothing |
| `Alerts.AlertStore.SetStatus` | src/alert.rs:159-186 | one operator action on the first record with that id |
| `Alerts.AlertStore.Find` | src/alert.rs:166-173 | finds the first record in key order, and none only if there is none |
| `Alerts.ObserveExactly` | src/alert.rs:103-157 | the whole effect of a process event: an exit resolves what fires or is acknowledged, any other event fires what is new or resolved, with every field of record and transition, and what is persisted |
| `Alerts.OperateExactly` | src/alert.rs:159-186 | the whole effect of an operator's action, and its two refusals |
| `Alerts.PairHistory` | src/alert.rs:99-186 | in every run with successful persists, each rule and process keeps one instance id and one first time, each published transition starts from the status reported last, and status, time and counter are those of the reports |
| `Alerts.Alternation` | src/alert.rs:103-157 | without operator actions the transitions of a pair strictly alternate firing and resolved |
| `Alerts.OperatorHasTheLastWord` | src/alert.rs:103-125 | process events and restarts never move a suppressed pair nor re-fire an acknowledged one, even when persists fail |
| `Alerts.KeyClashExactly` | src/alert.rs:99-101 | two rules can share a key if and only if one id is the other or starts with the other and a colon |
| `Alerts.ColonFreeIsSeparate` | src/alert.rs:99-101 | rule ids without colons never clash |
| `Alerts.InstanceIdExactly` | src/alert.rs:135-138 | instance ids are equal if and only if rule and first time are |
| `Alerts.SecondIsUnreachable` | src/alert.rs:159-186 | two processes of one rule firing at once share an id, and an operator moves only one |
| `Alerts.UnpersistedIsForgotten` | src/alert.rs:60-98 | what a call changed without persisting it is gone after a restart, and nothing else |
| `Alerts.FailedPersistLosesReport` | src/alert.rs:139-156 | after a failed persist the next transition starts from a status nobody was told |
| `Alerts.SyncExactly` | src/alert.rs:103-186 | in every run with failing persists and restarts, the record of a pair has the status last reported throughout, if and only if no call that changes its status fails to persist |
| `Alerts.StepSync` | src/alert.rs:103-186 | from agreement of memory and file with the reports, a call leaves the memory in disagreement exactly in that case, and otherwise both still agree |
| `Alerts.PreviousExactly` | src/alert.rs:126-156 | a published transition starts from the status reported last if and only if the record had it |
| `ConfigMigration.Directory.ImmutableBackup` | src/config_migration.rs:62-84 | creates the backup, or checks that an existing one is the same |
| `ConfigMigration.Directory.Store` | src/config_migration.rs:26-60 | temporary file, write, rename, call by call |
| `ConfigMigration.StoreFaults` | src/config_migration.rs:26-60 | whatever goes wrong, the destination is untouched until the rename, and the temporary file holds what was written unless it was cleaned up |
| `ConfigMigration.Directory.MigrateSecrets` | src/credentials.rs:91-121 | the secrets in order, each through a temporary file |
| `ConfigMigration.Directory.LoadAndMigrateConfig` | src/config_migration.rs:86-159 | one migration run with at most one crash or failed call |
| `ConfigMigration.Directory.RollbackConfig` | src/config_migration.rs:192-208 | one rollback run |
| `ConfigMigration.CrashSafe` | src/config_migration.rs:86-159 | after any number of runs with crashes or failures at any call, the configuration is the original or the migrated one, and if migrated the backups hold the original |
| `ConfigMigration.RerunReachesSameFiles` | src/config_migration.rs:86-159 | a rerun succeeds exactly when the work is done or its preconditions hold, and then ends with the files of an undisturbed migration |
| `ConfigMigration.UndisturbedMigration` | src/config_migration.rs:86-159 | the files of an undisturbed migration, and exactly when it succeeds |
| `ConfigMigration.PartialBackupBlocks` | src/config_migration.rs:62-84 | a crash while writing the backup makes every later run fail |
| `ConfigMigration.RollbackExactly` | src/config_migration.rs:192-208 | a rollback restores the backup exactly and names it, saves the configuration first, and succeeds if and only if nothing is in its way |
| `ConfigMigration.RollbackRestores` | src/config_migration.rs:192-208 | after any attempts with whatever crashes, a rollback succeeds exactly when it finds a backup and nothing in its way, and then restores the original bytes if and only if the backup holds them; once a migration has gone through, it does |
| `ConfigMigration.TruncatedBackupIsInstalled` | src/config_migration.rs:192-208 | after a crash while writing the backup, a rollback succeeds and installs the truncated bytes; the original survives only in the rollback backup |

## Left out

- Network, TLS, HTTP and AI providers, shell runners, procfs, eBPF, sockets, the terminal interface, setup, status output and support bundles: foreign calls and reporting.
- JSON text, SHA-256, HMAC, file permissions, directory creation and fsync: the digest is an injective constructor, a rename is atomic, a document is a value.
- SQL row-level security, retention deletes, administrative triggers and the reads of other tables: a request is one serialisable transaction, and a database error leaves the tables alone.
- Exporter counters, health files and the delivery circuit of the workers: they do not decide what is delivered.
- `gap_ranges` of the sequence table: no code writes it.
- The graph builder of the causal engine: its graph is an input, and rates are reals instead of floating-point numbers.
- Delivery.AlertTableIsReplay: assumes that no alert is in quarantine, which is enough but not necessary; `AlertRows.TableExactly` has the exact condition.
- Delivery.AlertsNeverRegress: the same assumption, and a statement about the list of committed alerts; `AlertRows.RowMovesBackExactly` speaks of the rows.
- Order.BreakableExactly: for records the collector accepts and batches within its limit; a record it refuses outright never arrives, so it cannot overtake.
- IndexUpdate.CountExactly: for services whose surplus vectors are the vector of no text; a surplus that happens to be the right vector would hide the miscount.
- Delivery.RunKeepsInv: one agent per node id with an intact sequence file, and a crash between file operations, not within one; alerts are published by one thread.
- Delivery.NoLoss: publishing and the export loop are steps of the protocol rather than methods; the spool, the check of the reply and the collector have methods of their own, and `SpoolRefinement` shows that those of the spool are the steps.
- SpoolRefinement.RunRefines: for limits below the largest u64 (`Spool.CapacityCheckExact`); damage makes a file unreadable and does not enlarge it.
- Leases.LeaseExclusion: the database clock does not run backwards; the 20-second HTTP timeout that makes reports timely is the assumption, not part of the model.
- Leases.JobTable.Fail: one table for both queues; the result row exists only for reasoning jobs, and the unused status `cancelled` is not modelled.
- Streamer.RenderChunks: writing to the terminal and its errors.
- IndexUpdate.IncrementalIsRebuild: a file's time and size do not change while a run reads it, file paths found are distinct, and chunker and embedding model are parameters (`Chunker` is not plugged in); the run after which they are compared reads every file when it rebuilds.  Here no batch is answered with too many vectors; `IndexUpdate.CountExactly` and `IndexUpdate.MiscountedBatchesPass` are about services that do.
- VectorDb.RoundTripExactly: floats are bit patterns, and repairing invalid UTF-8 is a parameter that at most triples a string.
- Chunker.ChunkFile: the extension and the file's size are inputs; 32-bit line numbers cannot overflow in a file of at most one mebibyte.
- Netlink.Listener.Receive: names and parents read from /proc are functions per buffer; timestamps, exit texts and the connector-confirmed flag are left out; native byte order is little-endian.
- Alerts.AlertStore.Apply: labels of alerts, and a second process with the same state file, which the code does not lock against.
- ConfigMigration.CrashSafe: at most one call goes wrong per run; two processes migrating at the same time are not modelled.
- Case handling, fleet inventory, evidence storage and the rest of the command line: no property here needs them.
