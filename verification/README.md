# serctl in Dafny

serctl is a command line SSH client with a background daemon. This project models the parts of it
that must stay right across crashes, lost replies, competing processes and hostile timing, and
proves what they promise for every input, every interleaving and every point of failure.

| file | component |
|---|---|
| `RuntimeFiles.dfy`, `RuntimeProtocol.dfy` | the daemon's descriptor and activation secret: publish, owner cleanup, reconcile, stale cleanup, as code and as steps of any number of processes that may die between two file operations |
| `DownloadProtocol.dfy`, `DownloadGuarantees.dfy`, `DownloadFrames.dfy`, `DownloadClient.dfy` | resumable downloads: a state machine with crashes and resumes, its guarantees over all runs, what a sequence of frames comes to, and the client code proved to move by that machine and to that end |
| `Upload.dfy` | resume negotiation, one-chunk-at-a-time sending, and the commit phase of an upload |
| `Submission.dfy` | framed request writes under a deadline, and how exec, create-directory and shutdown report failures before and after the request may have been submitted |
| `LocalCommit.dfy` | installing a download under its name without replacing anything |
| `AnchorExport.dfy` | exporting an audit anchor, with rollback |
| `RateTracker.dfy` | transfer speed over a sliding window |
| `AgentGateway.dfy` | the bounded JSONL line reader and the gateway loop |
| `GitProvenance.dfy` | parsing the git index and stamping the build commit |
| `Common.dfy` | options, bytes, searching a byte |

Conventions. Where the source works step by step, the model is a class whose methods change fields;
a ghost path or log ties these methods to a step relation, and theorems over whole runs are proved
of the relation. The outcome of an I/O operation is chosen by `*`, by a parameter, or by a script
of answers; a field `faults` counts failed operations and never exceeds a constant `budget` (for an
upload, each kind of operation has a constant limit), so that a method cannot blame an error that
did not happen. SHA-256 is a function parameter. Clocks, randomness, the network and the daemon's
replies are parameters. `pid_is_alive` never reports a live process dead, but may take a reused pid
for its dead predecessor.

Three promises turned out to be false of the code and are stated exactly instead.

- A finished download need not have the size on record. `ShortDownloadAccepted` gives the frames
  for every non-empty source. `SuccessHasRecordedSizeIff` gives the condition: the resume offset and
  the chunk bytes of the run add up to that size, or, what is the same, the count in the daemon's
  `Done` frame is that size. The code compares that count with the bytes received only.
- A finished download from a daemon that sends nothing but the source's next bytes may still be a
  proper prefix; the same frames show it. `HonestSuccessInstallsSource` gives the condition: the
  digest the daemon announced is that of the source. One direction needs that no proper prefix of
  the source shares its digest.
- A journal does not always let a later run finish, even if nothing fails any more and the daemon
  delivers everything. `StrandedJournal` gives the run: the partial name is gone, the last
  confirmation is lost, the journal stays. `NextRunCompletesIff` gives the condition: nothing is
  durable yet, or the partial file is still there.

The documentation of the local commit speaks of a verified final name; the code verifies it once,
and other processes may rename it afterwards. The model promises what held at that verification.
`Ok(false)` of the commit leaves open whether the temporary name goes: its removal may still be under
way on a worker that was not waited for. Without failures the flag is exact.

## Model

| member | source | states |
|---|---|---|
| `RuntimeFiles.RuntimeDir.RemoveSecretIfMatches` | crates/serctl_core/src/daemon_runtime.rs:266-278 | removes the secret exactly when it still holds the given one, never the descriptor; fails only on an I/O fault or an unreadable secret |
| `RuntimeFiles.RuntimeDir.CleanupRuntimeIfOwner` | crates/serctl_core/src/daemon_runtime.rs:342-366 | removes both files only when they were exactly the given pair, otherwise changes nothing; an unreadable descriptor fails with both files unchanged |
| `RuntimeFiles.RuntimeDir.CleanupIfSecretMatches` | crates/serctl_core/src/daemon_runtime.rs:351-366 | with the descriptor already matched, a different secret leaves both files alone |
| `RuntimeFiles.RuntimeDir.RemovePair` | crates/serctl_core/src/daemon_runtime.rs:359-366 | the descriptor goes first; a failure leaves the secret |
| `RuntimeFiles.RuntimeDir.ReconcileRuntime` | crates/serctl_core/src/daemon_runtime.rs:372-404 | "nothing left" means both files absent; a running daemon's files are untouched; without faults it answers "running" exactly when a descriptor was read and its process answered alive; an unreadable descriptor fails with both files unchanged; fails only for a cause |
| `RuntimeFiles.RuntimeDir.ReconcileOrphan` | crates/serctl_core/src/daemon_runtime.rs:373-378 | a secret without descriptor is removed, or the failure has a cause |
| `RuntimeFiles.RuntimeDir.ReconcileDead` | crates/serctl_core/src/daemon_runtime.rs:382-404 | a dead daemon's files are both gone on success |
| `RuntimeFiles.RuntimeDir.CleanupStaleRuntimeIfDead` | crates/serctl_core/src/daemon_runtime.rs:449-454 | reports stale exactly when a descriptor was read and the first pid answer was "dead"; both files are then gone unless a descriptor was read and the second answer was "alive", in which case neither changes; an unreadable descriptor leaves both files unchanged; fails only for a cause |
| `RuntimeFiles.RuntimeDir.StartUp` | crates/serctl_daemon/src/daemon.rs:5472-5656 | without faults, a failed bind among them, it finds a running daemon exactly when a descriptor was read and its process answered alive, and otherwise publishes exactly when its descriptor is valid and neither file is unreadable; a live publisher's files are untouched |
| `RuntimeFiles.RuntimeDir.PublishRuntime` | crates/serctl_core/src/daemon_runtime.rs:292-336 | published means both files were absent and are now this daemon's pair; a failed publish with successful rollback leaves both absent again, whether or not the failing writer had committed; without faults a valid descriptor on an empty directory is published |
| `RuntimeFiles.RuntimeDir.PublishPair` | crates/serctl_core/src/daemon_runtime.rs:310-336 | the secret is written before the descriptor; rolled back means both absent, and a single fault always ends so |
| `RuntimeFiles.RuntimeDir.PublishDescriptor` | crates/serctl_core/src/daemon_runtime.rs:318-336 | a failed descriptor write withdraws whatever it had committed and the secret; a single fault always ends so |
| `RuntimeProtocol.OpKeepsInv` | crates/serctl_core/src/daemon_runtime.rs:292-404 | every single file operation of the lock holder keeps the system invariant |
| `RuntimeProtocol.StepKeepsInv` | crates/serctl_core/src/daemon_runtime.rs:171-404 | so does every start, lock operation and death |
| `RuntimeProtocol.RunKeepsInv` | crates/serctl_core/src/daemon_runtime.rs:171-404 | the invariant holds in every reachable state of any number of processes |
| `RuntimeProtocol.VerdictMeansDead` | crates/serctl_core/src/daemon_runtime.rs:379-385 | a "dead" answer is about the publisher of the descriptor that was read, despite pid reuse |
| `RuntimeProtocol.OpSparesOthers` | crates/serctl_core/src/daemon_runtime.rs:342-404 | no operation changes the files while another live daemon is published |
| `RuntimeProtocol.DescriptorHasItsSecret` | crates/serctl_core/src/daemon_runtime.rs:292-404 | in every reachable state, a readable descriptor lies beside the secret of the same publisher |
| `RuntimeProtocol.PublishedDaemonOwnsFiles` | crates/serctl_core/src/daemon_runtime.rs:292-336 | the files of a live published daemon are exactly its pair, and no second live daemon is published |
| `RuntimeProtocol.PublishedUntilWithdrawal` | crates/serctl_core/src/daemon_runtime.rs:342-366 | from its publish until it dies or withdraws, under any interleaving of others, a daemon's pair stays on disk |
| `RuntimeProtocol.DescriptorWithdrawnByOwnerOrAfterDeath` | crates/serctl_core/src/daemon_runtime.rs:342-404 | whoever takes a descriptor away is its publisher, or its publisher is dead |
| `RuntimeProtocol.LockFreeReaderIsConsistent` | crates/serctl_cli/src/client.rs:1062-1084 | a client without the lock reads a pair published together, or the descriptor was withdrawn between its two reads |
| `RuntimeProtocol.PublishFindsNoFiles` | crates/serctl_core/src/daemon_runtime.rs:301-309 | after reconcile found nothing, under the same lock, the existence checks of publish cannot trip |
| `RuntimeProtocol.StartupFindsReadableFiles` | crates/serctl_core/src/daemon_runtime.rs:372-404 | in every reachable state a readable descriptor has a readable secret, so a startup is blocked only by an unreadable descriptor or an unreadable orphan secret |
| `RuntimeProtocol.UnreadableDescriptorFreezesFiles` | crates/serctl_core/src/daemon_runtime.rs:212-225 | an unparsable or wrong-version descriptor leaves both files as they are for ever |
| `RuntimeProtocol.OthersOnlyStartOrDie` | crates/serctl_core/src/daemon_runtime.rs:171-197 | while one process holds the lock, others can only start or die, and change neither file |
| `RuntimeProtocol.PathIsLockedSection` | crates/serctl_daemon/src/daemon.rs:5472-5656 | every interleaving of the code's path under the lock with others starting and dying, the pid answers being sound when they are given, is a sequence of protocol steps that keeps the invariant, and the process's own operations in it are exactly the path |
| `DownloadProtocol.StepKeepsInv` | crates/serctl_cli/src/client.rs:5513-5852 | every event of a download, including a crash, keeps the invariant of journal, partial file and memory |
| `DownloadProtocol.RecordDurableOutcome` | crates/serctl_cli/src/client.rs:242-263 | recording an offset either refuses it or moves journal and memory forward to it, also when the write reports an error after committing |
| `DownloadProtocol.PartialFile.SetLen` | crates/serctl_cli/src/client.rs:5726-5733 | within its length, keeps exactly the prefix |
| `DownloadGuarantees.RunKeepsInv` | crates/serctl_cli/src/client.rs:5513-5852 | the invariant holds at every moment of every sequence of crashed and resumed runs |
| `DownloadGuarantees.DurableOffsetsOrdered` | crates/serctl_cli/src/client.rs:242-263 | durable offset on disk, then in memory, then synced length: never decreasing in this order |
| `DownloadGuarantees.SetLenOnlyTruncates` | crates/serctl_cli/src/client.rs:5835-5848 | both `set_len` calls keep a prefix of the partial file and never extend it |
| `DownloadGuarantees.PartialDisappearsOnly` | crates/serctl_cli/src/client.rs:5769-5848 | in every run, the partial file a journal names disappears only by a crash, by others while no client runs, or by an unlink, waited for or late, of a run that has linked; then the whole file with the recorded digest is in place |
| `DownloadGuarantees.LinkedByItsRun` | crates/serctl_cli/src/client.rs:5769-5833 | a run that counts as linked has made and verified its own link, with no restart since |
| `DownloadGuarantees.JournalOnlyAdvances` | crates/serctl_cli/src/client.rs:213-263 | while a journal exists its durable offset never shrinks and its recorded size and digest never change |
| `DownloadGuarantees.AcksAdvance` | crates/serctl_cli/src/client.rs:5576-5597 | acknowledgements never go backwards, durable is at most confirmed and less than 8 MiB behind, from the resume offset on |
| `DownloadGuarantees.ResumeCoversAcks` | crates/serctl_cli/src/client.rs:5712-5733 | a later run resumes at or beyond everything acknowledged as durable before |
| `DownloadGuarantees.SuccessInstallsRecordedFile` | crates/serctl_cli/src/client.rs:5769-5833 | `Ok(n)` after any crashes and resumes: the installed file has n bytes and the digest the journal first recorded, and n is at most the recorded size |
| `DownloadGuarantees.StreamIsCounted` | crates/serctl_cli/src/client.rs:5563-5652 | in a run that is not lost, the count is the resume offset plus the bytes of its chunk frames, and the `Done` frame repeats it |
| `DownloadGuarantees.SuccessHasRecordedSizeIff` | crates/serctl_cli/src/client.rs:5626-5639 | n is the recorded size exactly when the resume offset plus the chunk bytes of the run is, and exactly when the count in the `Done` frame is |
| `DownloadGuarantees.ShortDownloadAccepted` | crates/serctl_cli/src/client.rs:5603-5639 | for every non-empty source, a complete successful run of an honest daemon that returns 0, with the source's size on record and nothing installed but the empty file |
| `DownloadGuarantees.StepKeepsPrefix` | crates/serctl_cli/src/client.rs:5563-5597 | with a daemon that sends the source's next bytes, every event keeps durable prefixes equal to the source's |
| `DownloadGuarantees.RunKeepsPrefix` | crates/serctl_cli/src/client.rs:5513-5852 | so does every run with crashes and resumes |
| `DownloadGuarantees.HonestSuccessInstallsSource` | crates/serctl_cli/src/client.rs:5769-5833 | then `Ok(n)` installs the first n bytes of the source, and all of it exactly when the digest on record is the source's |
| `DownloadGuarantees.StrandedJournal` | crates/serctl_cli/src/client.rs:5800-5833 | a run after which the journal says that all of the source is durable while the partial file is gone |
| `DownloadFrames.DeliveryEndsVerified` | crates/serctl_cli/src/client.rs:5563-5652 | from any point of a transfer with size and digest on record, the source's remaining bytes in any chunking, with progress in between, end verified with all of the source |
| `DownloadFrames.AnnouncementAccepted` | crates/serctl_cli/src/client.rs:5599-5625 | announcing size and digest puts them on record, or repeats what is on record, and the transfer goes on from the resume offset |
| `DownloadFrames.CompleteDeliverySucceeds` | crates/serctl_cli/src/client.rs:5677-5852 | a run that resumes with the source's own prefix and gets a complete delivery is expected to end with all of the source, whatever follows |
| `DownloadClient.LogFollows` | crates/serctl_cli/src/client.rs:5677-5852 | what the client code did is a path of the state machine |
| `DownloadClient.LogKeepsInv` | crates/serctl_cli/src/client.rs:5677-5852 | hence its invariant holds of the code |
| `DownloadClient.SessionsAreARun` | crates/serctl_cli/src/client.rs:5677-5852 | any number of clients after one another, each stopped after any event by a crash or otherwise, make up one run of the machine |
| `DownloadClient.NextRunCompletesIff` | crates/serctl_cli/src/client.rs:5677-5852 | after any crashes and resumes under an honest daemon, a fault-free run with a complete delivery installs all of the source exactly when nothing is durable yet or the partial file is there |
| `DownloadClient.DownloadClient.PersistJournal` | crates/serctl_core/src/security.rs:123-134 | an atomic replacement commits the whole state or leaves the old file, and may report an error after committing |
| `DownloadClient.DownloadClient.PrepareJournal` | crates/serctl_cli/src/client.rs:297-417 | resumes the stored journal only for the same subject and a coherent record, creates one otherwise; an unreadable journal file is refused untouched; without a fault it fails only for an unreadable, foreign or incoherent journal |
| `DownloadClient.DownloadClient.OpenPartialFile` | crates/serctl_cli/src/client.rs:5712-5733 | success leaves exactly the durable prefix of what was there; without a fault it fails exactly when the partial file does not hold that prefix; whatever fails, a prefix that was there still is |
| `DownloadClient.DownloadClient.TruncatePartialFile` | crates/serctl_cli/src/client.rs:5726-5733 | cut to the durable offset and synced |
| `DownloadClient.DownloadClient.ReadPrefix` | crates/serctl_cli/src/client.rs:5535-5561 | reads back exactly the durable prefix under any short reads |
| `DownloadClient.DownloadClient.BeginStream` | crates/serctl_cli/src/client.rs:5535-5561 | the digest restarts over the durable prefix, and counting after it |
| `DownloadClient.DownloadClient.RecordDurableOffset` | crates/serctl_cli/src/client.rs:242-263 | agrees with the machine's journal update in every phase |
| `DownloadClient.DownloadClient.HandleChunk` | crates/serctl_cli/src/client.rs:5563-5597 | appends exactly the chunk and moves journal and counters as the reference does; without a fault it fails exactly for an unwelcome chunk |
| `DownloadClient.DownloadClient.AcceptChunk` | crates/serctl_cli/src/client.rs:5573-5597 | the written chunk is counted, a full window closed, and the acknowledgement sent |
| `DownloadClient.DownloadClient.CloseWindow` | crates/serctl_cli/src/client.rs:5576-5590 | a full window is synced before it is recorded as durable |
| `DownloadClient.DownloadClient.HandleDigest` | crates/serctl_cli/src/client.rs:213-240 | the first digest fixes size and digest; a later one must repeat them |
| `DownloadClient.DownloadClient.HandleDone` | crates/serctl_cli/src/client.rs:5626-5639 | verified only when count and digest match, and then the last byte is durable |
| `DownloadClient.DownloadClient.HandleFrame` | crates/serctl_cli/src/client.rs:5563-5652 | without a fault a frame ends the transfer exactly when it is unwelcome (chunk size, transfer limit, invalid event, digest, identity or recorded size), completes it only as `Done`, and otherwise does what the reference says |
| `DownloadClient.DownloadClient.StreamFrames` | crates/serctl_cli/src/client.rs:5562-5664 | consumes the daemon's frames in order; without a fault it ends verified exactly when no unwelcome frame comes before `Done`, with the journal and counters folded from the frames; the partial file only grows, the durable offset never shrinks, and without a fault the journal on disk keeps up with memory |
| `DownloadClient.DownloadClient.DownloadViaDaemon` | crates/serctl_cli/src/client.rs:5513-5664 | the same from the rehash of the durable prefix on |
| `DownloadClient.DownloadClient.InstallFile` | crates/serctl_cli/src/client.rs:5769-5833 | success installs the partial file's content where there was nothing; the destination is never replaced; until it is there the partial file keeps its content; without a fault it fails only for a destination that exists, and success leaves neither partial file nor journal |
| `DownloadClient.DownloadClient.CloseBooks` | crates/serctl_cli/src/client.rs:5800-5833 | an error may follow the link, but leaves the installed file |
| `DownloadClient.DownloadClient.ForgetJournal` | crates/serctl_cli/src/client.rs:5825-5833 | a journal that cannot be removed does not turn success into failure |
| `DownloadClient.DownloadClient.KeepDurablePrefix` | crates/serctl_cli/src/client.rs:5835-5848 | whatever fails, the partial file stays, whole or cut to its durable prefix; without a fault it is exactly that prefix; the journal is as it was |
| `DownloadClient.DownloadClient.RunLoaded` | crates/serctl_cli/src/client.rs:5712-5848 | without a fault the result is the one disk and frames call for, and a failure leaves the old durable prefix at the start of a partial file as long as the journal says; whatever fails, the prefix is still there unless the file was installed |
| `DownloadClient.DownloadClient.DownloadFile` | crates/serctl_cli/src/client.rs:5677-5852 | one whole run: `Ok(n)` means a file of n bytes in a place that was free, matching a journal that could not be removed; an existing destination or unreadable journal is refused untouched; without a fault, result and installed content are exactly what disk and frames call for, success leaves neither journal nor partial file, and failure leaves a partial file that begins with the old durable prefix and is as long as the journal says; whatever fails, that prefix is still there unless the destination is |
| `Upload.OneChunkAtATime` | crates/serctl_cli/src/client.rs:5120-5154 | at every moment at most one chunk is unacknowledged, and each is non-empty and within the negotiated size |
| `Upload.PeakIsLargest` | crates/serctl_cli/src/client.rs:5080-5100 | the resume offset is the largest announced one |
| `Upload.ChunkIsLastAnnounced` | crates/serctl_cli/src/client.rs:5080-5100 | the chunk size is the last one announced, an announcement of 0 being none |
| `Upload.UploadClient.Observe` | crates/serctl_cli/src/client.rs:444-462 | the journaled offset becomes the maximum of itself and the announced one; foreign or oversized offsets are refused without a change; disk never runs ahead of memory |
| `Upload.UploadClient.NoteProgress` | crates/serctl_cli/src/client.rs:5136-5147 | a report passes only if it is valid, of this transfer and within its size; it breaks as bad progress only if it is not, and as a failed save only when it moves the journal and no save is left |
| `Upload.UploadClient.Consider` | crates/serctl_cli/src/client.rs:5080-5100 | a report passes only if it is acceptable, sets chunk size and offset accordingly, and is refused only if it is not or the journal cannot be saved |
| `Upload.UploadClient.Negotiate` | crates/serctl_cli/src/client.rs:5076-5115 | passes the journal comparison exactly when the largest announced offset is at least the journaled one, without a journal exactly when it is 0; the chunk size is the last one announced, 2 KiB by default, at most 32 KiB; it breaks off only for a limit reached or for the last frame received, all earlier ones being acceptable |
| `Upload.UploadClient.AwaitAck` | crates/serctl_cli/src/client.rs:5132-5154 | goes on exactly with the daemon's acknowledgement, before which there were only good reports; breaks off only for a limit reached or for the frame consumed last |
| `Upload.UploadClient.SendChunk` | crates/serctl_cli/src/client.rs:5124-5154 | logs the chunk before its write begins, keeps the log orderly, and consumes exactly one acknowledgement with the good reports before it, or names the limit or frame that stopped it |
| `Upload.UploadClient.SendSource` | crates/serctl_cli/src/client.rs:5116-5155 | the chunks sent are exactly the source from the resume offset, under any read sizes, with one acknowledgement consumed for each and nothing else but good reports; if it stops, at most one chunk is open, and a limit or the last frame is the cause |
| `Upload.CommitAnswers` | crates/serctl_cli/src/client.rs:4909-4954 | the first frame after the end frame that is no valid report, if it arrives in time, decides: stored, size mismatch, refused with its text, invalid progress or unknown, each exactly for its kind of frame |
| `Upload.NoAnswerInTime` | crates/serctl_cli/src/client.rs:4909-4954 | if no frame decides in time the outcome is unknown; a plain cancellation or timeout is no possible answer |
| `Upload.UploadClient.AwaitCommit` | crates/serctl_cli/src/client.rs:4993-5037 | gives the verdict of the daemon's frames within deadline plus grace |
| `Upload.UploadClient.Operate` | crates/serctl_cli/src/client.rs:5070-5160 | the end frame is begun only after the source was sent from the largest offset the daemon announced, in chunks of the size it announced, each acknowledged; otherwise the operation stopped for a limit reached or for the last frame received, which is named |
| `Upload.UploadClient.StopHasCause` | crates/serctl_cli/src/client.rs:5070-5160 | an operation that stops before its end frame, although the daemon negotiates, agrees with the journal and acknowledges as often as there can be chunks, has run out of time, writes, reads or journal saves |
| `Upload.UploadClient.UploadFile` | crates/serctl_cli/src/client.rs:5051-5256 | with such a daemon and nothing running out, the end frame is reached; once it has begun, the result is the verdict of the frames that follow the last acknowledgement, as many as arrive in the time that is left plus the grace, exactly; the offset is the largest announced and at least the journaled one; durable prefix plus chunks sent is the source; before that it never claims a commit, and the cause is named |
| `Submission.NumberOfBigEndian` | crates/serctl_protocol/src/lib.rs:2291-2302 | the length prefix round-trips for every 32-bit length |
| `Submission.ReceivedExactlyWhenWhole` | crates/serctl_protocol/src/lib.rs:2278-2303 | of the prefixes of a frame, only the whole frame can be decoded, and it decodes to the request |
| `Submission.DecodableExactlyWhenAccepted` | crates/serctl_protocol/src/lib.rs:2278-2303 | the request decodes exactly when all of its bytes were accepted, otherwise nothing does |
| `Submission.FrameFateExplained` | crates/serctl_cli/src/client.rs:3647-3696 | a frame that starts in time and within its limit fails only for what the last turn taken shows, and no turn before that one was late or failed |
| `Submission.DeadlineAwareWriter.PollWrite` | crates/serctl_cli/src/client.rs:3647-3696 | no poll whose clock reading is at or past the deadline reaches the writer |
| `Submission.DeadlineAwareWriter.WriteAll` | crates/serctl_protocol/src/lib.rs:2297-2298 | however the writer splits, delays and fails, outcome, turns taken and bytes accepted are the fate of the buffer |
| `Submission.DeadlineAwareWriter.Flush` | crates/serctl_cli/src/client.rs:3674-3683 | the same for a flush, which adds no bytes and obeys the deadline |
| `Submission.DeadlineAwareWriter.WriteFrame` | crates/serctl_cli/src/client.rs:3622-3754 | outcome, turns and accepted bytes are the fate of the frame; the mark is set exactly when all its bytes are accepted, which is exactly when the peer can decode the request; otherwise it can decode nothing |
| `Submission.ClassifiedSurvivesRelay` | crates/serctl_core/src/ssh.rs:229-283 | an outcome-unknown error keeps its kind and its words when its text is relayed and read back |
| `Submission.OutputComesFirst` | crates/serctl_cli/src/client.rs:3766-3809 | a reply with output puts its bytes at the front of its own stream, standard output or standard error, and changes nothing else unless the output grows beyond the limit |
| `Submission.FirstReplyDecides` | crates/serctl_cli/src/client.rs:3766-3809 | any other reply decides: an exit status is success with the output so far, an error of the daemon is its rejection or its unknown outcome, anything else a plain failure |
| `Submission.ReadExecResponse` | crates/serctl_cli/src/client.rs:3766-3809 | frame by frame gives the same result as judging all frames at once, including the 8 MiB limit |
| `Submission.ExecCapture` | crates/serctl_cli/src/client.rs:3567-3620 | for every script of the writer: success exactly when the frame was written and the replies mean success; a failure is outcome-unknown exactly when the daemon can decode the request and did not plainly reject it; any other failure is that rejection or a request the daemon can never decode |
| `Submission.ConcludeExec` | crates/serctl_cli/src/client.rs:3609-3619 | the exchange after the write, by its outcome and the mark |
| `Submission.CreateDirectory` | crates/serctl_cli/src/client.rs:4358-4443 | the same for create-directory with its single reply |
| `Submission.ShutDown` | crates/serctl_cli/src/client.rs:4043-4130 | absent, rejected, not sent, stopped or unconfirmed, each exactly by publication, the fate of the frame, the reply and whether the daemon was seen to disappear; a lost acknowledgement alone is no failure |
| `LocalCommit.LocalDirectory.RunLink` | crates/serctl_cli/src/client.rs:6110-6130 | the link never takes an existing name |
| `LocalCommit.LocalDirectory.RunRemoval` | crates/serctl_cli/src/client.rs:6202-6222 | removes the partial name and nothing else, whenever the worker gets to it |
| `LocalCommit.LocalDirectory.AwaitRemoval` | crates/serctl_cli/src/client.rs:6202-6222 | a wait that ends early reports `false` and does not stop the worker |
| `LocalCommit.LocalDirectory.VerifyIdentity` | crates/serctl_cli/src/client.rs:6227-6244 | positive only when the destination named the downloaded inode at that moment, and records that moment's directory |
| `LocalCommit.LocalDirectory.AwaitCommit` | crates/serctl_cli/src/client.rs:6118-6195 | a reported refusal means that no link was made; it gives up on the link only after two missed waits; left alone and without faults the directory decides |
| `LocalCommit.LocalDirectory.FinishCommit` | crates/serctl_cli/src/client.rs:6196-6224 | the removal is asked for only after verification; `true` means it was done, and without failures `false` means it was not |
| `LocalCommit.LocalDirectory.CommitNoReplace` | crates/serctl_cli/src/client.rs:6087-6224 | under any interleaving: every link made was to a free name; success implies the destination was verified; `true` implies the partial name was removed, and without failures exactly then; no failure asks for its removal; past the deadline nothing is started; a pending or conflicting link is reported only after two missed waits; left alone and without faults, the directory alone decides the outcome, and success is the link plus the removal |
| `AnchorExport.ReboundParentPassesFileChecks` | crates/serctl_cli/src/audit_recovery.rs:476-496 | a rebound parent with a hard link to the same inode fools all comparisons but the parent's |
| `AnchorExport.AnchorExporter.Export` | crates/serctl_cli/src/audit_recovery.rs:178-233 | others acting between any two operations: success means bytes, path and parent were each confirmed, the parent at return to be the directory opened first, and nothing was unlinked; rolled back means no link is left, ever, and the path was absent at the last look. Others acting inside the callbacks only: success means in place at return, and nothing but the created inode is unlinked. Undisturbed and without faults it succeeds exactly when it may; left alone, a single fault after the creation is rolled back and restores every directory; undisturbed since the failure, rolled back exactly when the creation was still undoable |
| `AnchorExport.AnchorExporter.PersistOrRollBack` | crates/serctl_cli/src/audit_recovery.rs:194-233 | the guarded part: every failure is followed by the rollback, with the same account |
| `AnchorExport.AnchorExporter.PersistChecked` | crates/serctl_cli/src/audit_recovery.rs:194-232 | success implies each inspection held when made, and, if others acted inside the callbacks only, that the anchor is in place |
| `AnchorExport.AnchorExporter.CheckAll` | crates/serctl_cli/src/audit_recovery.rs:203-225 | the three inspections after a callback pass, undisturbed, exactly when the anchor is in place |
| `AnchorExport.AnchorExporter.CreateNew` | crates/serctl_cli/src/audit_recovery.rs:235-275 | creates only a name that was free, and then the only link to the new inode |
| `AnchorExport.AnchorExporter.RollBack` | crates/serctl_cli/src/audit_recovery.rs:309-339 | rolled back implies no link left and the path absent when last inspected; without faults and disturbance it holds exactly when the creation was still undoable; at most one entry is unlinked, and undisturbed outside the callbacks only the created inode |
| `AnchorExport.AnchorExporter.RemoveCreatedIfSame` | crates/serctl_cli/src/audit_recovery.rs:598-627 | succeeds only when no link is left; undisturbed it unlinks the path only if it names the created inode, and succeeds exactly when that leaves no link |
| `AnchorExport.AnchorExporter.DropGuard` | crates/serctl_cli/src/audit_recovery.rs:341-354 | a disarmed guard does nothing; an armed one unlinks at most one entry, undisturbed only the created inode, and without faults exactly when the path still names it |
| `RateTracker.StalledWindowIsZero` | crates/serctl_cli/src/client.rs:731-733 | after a window without advance the window speed is zero by itself, so the explicit zeroing is redundant |
| `RateTracker.PrunedFrontIsWindowStart` | crates/serctl_cli/src/client.rs:715-725 | the front of the pruned queue is the window start of the full history |
| `RateTracker.SpeedTimesTime` | crates/serctl_cli/src/client.rs:726-730 | a speed is in bytes per second: times the elapsed seconds it is the bytes |
| `RateTracker.AverageExcludesResumedPrefix` | crates/serctl_cli/src/client.rs:734-742 | the average counts exactly what was gained since the last "resumed" event, or since the start |
| `RateTracker.EtaIsInMilliseconds` | crates/serctl_cli/src/client.rs:743-753 | at the given speed the rest takes the estimated milliseconds, and less than one more |
| `RateTracker.TransferRateTracker.Enrich` | crates/serctl_cli/src/client.rs:692-757 | rates equal those recomputed from all events since the last "resumed"; an event is refused exactly when invalid or going backwards, and then changes nothing |
| `RateTracker.TransferRateTracker.Observe` | crates/serctl_cli/src/client.rs:698-714 | the fields stay a pruned image of the full history |
| `RateTracker.TransferRateTracker.Prune` | crates/serctl_cli/src/client.rs:715-719 | drops exactly what lies before the window start |
| `RateTracker.TransferRateTracker.Rates` | crates/serctl_cli/src/client.rs:720-757 | no subtraction saturates, and the result is valid |
| `AgentGateway.StopsAtOverlongPiece` | crates/serctl_cli/src/client.rs:2197-2227 | reading stops for an overlong line exactly when some stretch before LF or the end exceeds 1 MiB, otherwise where the input ends or breaks |
| `AgentGateway.ReadingUndoesPrinting` | crates/serctl_cli/src/client.rs:2197-2227 | lines without LF, ended by CR LF, or by LF unless they end in CR, are read back unchanged |
| `AgentGateway.LastLineIsKept` | crates/serctl_cli/src/client.rs:2197-2227 | an unterminated last line is kept with its CR, and lost to a read error |
| `AgentGateway.BufferedReader.ReadBoundedLine` | crates/serctl_cli/src/client.rs:2197-2227 | depends only on the flat input and on whether a read error follows it, not on how it is split into buffers: LF-split, one CR stripped only before LF, an unterminated line lost to a read error |
| `AgentGateway.Dispatch` | crates/serctl_cli/src/client.rs:2229-2260 | the result carries the request's id and is a success exactly when schema, clock, scope and relay all agree; a wrong schema and a denied scope each have their own code, exactly |
| `AgentGateway.Answer` | crates/serctl_cli/src/client.rs:2163-2195 | a line is answered as an invalid request, with id 0, exactly when it does not parse |
| `AgentGateway.RunGateway` | crates/serctl_cli/src/client.rs:2163-2195 | emits the results of the non-blank lines in order, exactly as many as the output takes, and ends in error exactly when a write fails, a line is too long or the input breaks |
| `AgentGateway.ResultsAnswerLines` | crates/serctl_cli/src/client.rs:2163-2195 | as many results as non-blank lines, each answering its own |
| `AgentGateway.LineHasItsResult` | crates/serctl_cli/src/client.rs:2518-2529 | every non-blank line has exactly one result, at its place, with its id, or 0 when it does not parse |
| `GitProvenance.JoinUndoesSplit` | build_support/git_provenance.rs:218-230 | splitting loses nothing |
| `GitProvenance.ParsedIsPrinted` | build_support/git_provenance.rs:226-246 | an entry parses to e exactly when it is e printed with a hexadecimal id |
| `GitProvenance.ParseIff` | build_support/git_provenance.rs:218-248 | a listing parses to a list of entries exactly when its non-empty pieces are those entries printed |
| `GitProvenance.RoundTrip` | build_support/git_provenance.rs:218-248 | parsing undoes printing for all entries, with paths of any bytes but NUL |
| `GitProvenance.TrimEol` | build_support/git_provenance.rs:260-263 | strips all line ends at the end and nothing else |
| `GitProvenance.RawWorktreeOid` | build_support/git_provenance.rs:250-265 | the id git answered, or none when it answered no non-empty hexadecimal id |
| `GitProvenance.CompareAll` | build_support/git_provenance.rs:267-281 | clean exactly when every file matches the index; undecided exactly when the first mismatch is a file git could not hash |
| `GitProvenance.RawTrackedWorktreeIsClean` | build_support/git_provenance.rs:267-281 | the same, and undecided when the index cannot be listed or parsed |
| `GitProvenance.HiddenFlagsArePrinted` | build_support/git_provenance.rs:430-438 | a listing as git prints it counts as hiding changes exactly when some entry is assume-unchanged or skip-worktree |
| `GitProvenance.WorkingTreeIsDirty` | build_support/git_provenance.rs:419-438 | not dirty exactly when every query succeeded, status is empty, no entry is hidden or a gitlink and every id matches |
| `GitProvenance.BuildCommit` | build_support/git_provenance.rs:440-466 | the commit string is without "-dirty" exactly when all of that holds, HEAD has 12 to 64 hexadecimal digits and nothing was forced; then it is that id |

## Left out

- LocalCommit.LocalDirectory.VerifyIdentity: symbolic links under the destination name are not modelled; a name stands for one inode.
- RateTracker.TransferRateTracker.Enrich: like `Rates`, on exact reals.
- RateTracker.TransferRateTracker.Rates: speeds are exact reals, so floating-point rounding and the finiteness test are not modelled.
- DownloadClient.DownloadClient.HandleChunk: a write counts when it completes; buffered late writes of a cancelled run are covered only as arbitrary changes of the unsynced tail between runs.
- DownloadClient.DownloadClient.InstallFile: uses one link step, which may take effect and still be reported as failed; the workers' interleavings are the subject of `LocalCommit`, and a link or unlink that takes effect later is an event of others in `DownloadProtocol` (`Rival`, `LateUnlink`, `Between`).
- AgentGateway.RunGateway: JSON parsing and each relayed operation are parameters; one gateway session, one writer.
- Submission.ExecCapture: starts after the connection; the separate path `agent_exec_until`, which reports a response timeout plainly, is not modelled.
- Submission.ShutDown: the wait for the daemon's disappearance is a parameter.
- GitProvenance.RawTrackedWorktreeIsClean: paths stay as git prints them; joining them to the repository root is not modelled.
- Downloads without a journal, which keep nothing between runs.
- Windows variants of file identity, locking, deletion by handle and access control.
- The Tokio runtime, timers and thread pool, beyond "completes, times out or is cancelled".
- Durability of directory entries: a created, linked or removed name is taken to survive a crash.
- SHA-256, AEAD, key exchange and zeroization.
- The handshake, the JSON frame codec, the vault, the audit ledger and the SSH engine.
- `clear_runtime_state` and the retry loop around the startup lock.
- Upload journal creation and source hashing, which repeat the download's journal handling without its state.
- Credential leases, grants, status polling, shell and tunnel pumps, terminal handling: mostly plumbing around code modelled here or not shown.
