# Verified model of the durable and concurrent core of Edge

This project models the parts of the Edge proxy that have to survive crashes, failures and
any order of threads, and proves what they keep. `dafny verify dfyconfig.toml` checks all of it.

- **Audit ledger** (`Audit*.dfy`). A hash chain of frames in numbered segment files, with
  rotation, retention behind checkpoints, recovery of torn tails and cursor paging. A log is a
  sequence of segments of frames; the files are its rendering. `AuditScan` is the parser of the
  files, `AuditReader` the loops that run it, `AuditAppend` an append on the log, `AuditCrash`
  every point at which an append can stop, `AuditLimit` what the scan limit refuses,
  `AuditEffects` every file fault, and `AuditLedger`
  the class `FileAuditLedger` whose methods are proved against these functions. `AuditRuns`
  puts appends, crashes and reopenings into arbitrary runs, `AuditShared` the calls of several
  clients into arbitrary interleavings, and `AuditClones` is the shared object that serves them.
- **Health probe pool** (`ProbePool.dfy`). The bounded queue, the completion channel, the
  condition variable and the shutdown, as a state machine over the steps of all threads.
- **Activation** (`Activation.dfy`). Applying a configuration to core, mirror and health
  controller, with compensation when a later step fails.
- **Backup archive** (`Wire.dfy`, `Manifest.dfy`, `ManifestCodec.dfy`, `Archive.dfy`). The
  manifest codec and the record stream inside the encryption.
- **Restore** (`RestorePublish.dfy`). Replacing a data directory by renames and recursive
  deletions, with a journal, stops anywhere, and recovery that may be stopped in turn.
- **Health reader** (`HealthReader.dfy`). Reading a status line from a plain or TLS stream.
- **Journals** (`Journals.dfy`, `RestoreJournal.dfy`, `UpgradeJournal.dfy`). The two durable
  `key=value` journals.
- **Trust bundles** (`TrustCache.dfy`). Preparing the TLS factories of a generation through a
  cache that reads each trust bundle once.

Hashing, the JSON record codec, the file system, the trust store, clocks and thread scheduling
are parameters: a hash is any function to 32 bytes, and results that would need it to be
injective give a collision instead; the record codec is any pair of functions that reads back
what it wrote; a file fault, the way a stream is split into reads and the order of threads are
arguments over which the results are stated.

## Findings

The named lemma gives the input, the second one the exact condition.

| finding | input | exact condition |
|---|---|---|
| No append looks at the scan limit: a ledger acknowledges records until it holds more than `max_scan_records`, and from then on its files no longer open. With the limits the program runs with, records in frames of up to 1,341 bytes lead there before the first retention. | `AuditLoss.DefaultsPassScanLimit`, and for any limits `AuditLoss.ScanLimitPassed` | `AuditLimit.ReopensExactly`: more frames than the scan limit; for files that break off, `AuditLimit.TailReopensExactly` |
| Where the limits let retention start before the scan limit, a ledger is lost after two crashes: one between creating a segment and syncing its checkpoint, one between two of the deletions the next retention makes. No later opening succeeds. The storage limits are private and smaller ones are set only by tests; with the default ones this needs frames of more than about 1,341 bytes on average. | `AuditLoss.FreshLedgerLost` | `AuditLimit.CrashSafeExactly`: below the scan limit, some partial removal that no checkpoint already in the log vouches for |
| Recovery of a restore commits a target that a stopped rollback has half deleted, and then deletes the only intact tree. | `RestorePublish.DamagedTargetCommitted` | `RestorePublish.RecoverySafeExactly`: the target is damaged, its configuration is still readable, and the journal says published, or moved with a valid old tree in reserve |
| A finished rollback that stops before its journal is deleted is reported as a completed commit. | `RestorePublish.RolledBackReportedAsCommit` | `RestorePublish.CommitReportedExactly`: no rollback directory is there |
| Restoring over a directory without a readable current revision, which preparation accepts, and stopping before the stage is recorded as published leaves a transaction that recovery never resolves, with both trees intact. | `RestorePublish.UnreadableOldUnresolved` | `RestorePublish.AmbiguousExactly` |
| Loading a journal panics on a value in which a character of several bytes lies across a pair of digits. | `RestoreJournal.PanickingText`, `UpgradeJournal.PanickingText` | `RestoreJournal.LoadPanicsExactly`, `UpgradeJournal.LoadPanicsExactly` |
| An upgrade journal of more than 4096 bytes is written and cannot be loaded. | `UpgradeJournal.LongBackupIsLost` with `UpgradeJournal.LongBackupExists` | `UpgradeJournal.UpgradeRoundTrip` |
| A manifest decodes with any nonzero admin byte and then encodes to other bytes. | `Manifest.BodyRoundTrip` with an admin byte above 1 | `Manifest.ReencodesExactly`: an admin byte above 1 |
| A status line with a reason phrase that is not UTF-8, which section 4 of RFC 9112 allows, is refused as malformed. | `HealthReader.StatusLineAccepted` | the same lemma |

## Model

| member | source | states |
|---|---|---|
| `AuditFrames.HeaderFields` | crates/edge-adapters/src/audit_ledger.rs:1582-1598 | the six fields read back from a written header are the frame's sequence, predecessor hash and payload length |
| `AuditFrames.HeaderFromFields` | crates/edge-adapters/src/audit_ledger.rs:1648-1668 | conversely, bytes whose six fields are these values are that header |
| `AuditFrames.HashInputInjective` | crates/edge-adapters/src/audit_ledger.rs:1582-1598 | two frames with the same hash input are the same frame |
| `Bytes.BeRoundTrip` | crates/edge-adapters/src/audit_ledger.rs:1582-1598 | reading a big-endian field gives the value that was written, for every value that fits |
| `Bytes.BeInverse` | crates/edge-adapters/src/audit_ledger.rs:1582-1598 | writing a field that was read gives the same bytes |
| `AuditScan.ScanComplete` | crates/edge-adapters/src/audit_ledger.rs:1610-1778 | the scan of the files of an acceptable log gives that log, whole or with a torn tail cut off when recovery is allowed |
| `AuditScan.ScanSound` | crates/edge-adapters/src/audit_ledger.rs:1610-1778 | what the scan accepts is the rendering of an acceptable log, and what it cuts off is a frame that breaks off |
| `AuditScan.ScanAcceptsExactly` | crates/edge-adapters/src/audit_ledger.rs:1610-1778 | the files open if and only if they render an acceptable log, with a torn tail at most when recovery is allowed |
| `AuditScan.ReopenReadsBack` | crates/edge-adapters/src/audit_ledger.rs:1610-1778 | the scan of the rendered log is that log, with nothing cut |
| `AuditScan.TornFrameIsCut` | crates/edge-adapters/src/audit_ledger.rs:1634-1714 | every strict prefix of the next frame is cut off exactly when recovery is allowed, and refused otherwise |
| `AuditScan.ScanUnanchored` | crates/edge-adapters/src/audit_ledger.rs:1752-1764 | files whose first frame no retained checkpoint vouches for are refused |
| `AuditCommitment.SuffixCommitment` | crates/edge-adapters/src/audit_ledger.rs:1582-1598 | frames that end in the same hash agree backwards from it, or exhibit a hash collision |
| `AuditCommitment.ChainCommitment` | crates/edge-adapters/src/audit_ledger.rs:1610-1778 | two accepted sets of files with the same head and last hash hold the same frames whatever their segments, or exhibit a collision |
| `AuditReader.ReadFrame` | crates/edge-adapters/src/audit_ledger.rs:1634-1733 | one turn of the inner loop, with the program's own variables, decides as the parser does |
| `AuditReader.ReadFile` | crates/edge-adapters/src/audit_ledger.rs:1626-1734 | the inner loop over one file gives the parser's frames, kept bytes, owners and anchor |
| `AuditReader.ScanSegments` | crates/edge-adapters/src/audit_ledger.rs:1610-1778 | the whole scan returns exactly the image of the parsed log, or the parser's error |
| `AuditAppend.FindRemoval` | crates/edge-adapters/src/audit_ledger.rs:1332-1376 | the removal loop finds the first count whose removal fits, and none before it fits |
| `AuditAppend.PrunedByMeaning` | crates/edge-adapters/src/audit_ledger.rs:1344-1352 | the checkpoint metadata names the removed sequence range and its last hash |
| `AuditAppend.CheckpointVouches` | crates/edge-adapters/src/audit_ledger.rs:1377-1385 | what the checkpoint names is what precedes the first frame retention leaves in place |
| `AuditAppend.CheckpointAnchors` | crates/edge-adapters/src/audit_ledger.rs:1377-1385 | the files after the whole removal are anchored by the checkpoint written before it |
| `AuditAppend.PruneKeeps` | crates/edge-adapters/src/audit_ledger.rs:1332-1404 | retention as a whole keeps the log well-formed |
| `AuditAppend.PreparedFlat` | crates/edge-adapters/src/audit_ledger.rs:1270-1297 | storage preparation drops some oldest frames, adds at most a checkpoint and changes nothing else |
| `AuditAppend.NeverRefused` | crates/edge-adapters/src/audit_ledger.rs:1270-1297 | preparation is never refused for lack of capacity when a checkpoint and the frame fit a segment |
| `AuditAppend.AppendKeeps` | crates/edge-adapters/src/audit_ledger.rs:1193-1224 | an append keeps the log well-formed and ends it with the frame that decodes to the record |
| `AuditAppend.PreparedSequence` | crates/edge-adapters/src/audit_ledger.rs:1226-1236 | the record's sequence is one past the head, or two past it after a checkpoint |
| `AuditCrash.CrashFrames` | crates/edge-adapters/src/audit_ledger.rs:1193-1404 | at every crash point the disk holds the acknowledged frames without some oldest ones and a first part of the planned ones; frames are missing only once the checkpoint is whole |
| `AuditCrash.OpenRecovers` | crates/edge-adapters/src/audit_ledger.rs:1127-1191 | opening the files of a log that may break off gives that log, and one recovery record exactly when bytes were cut |
| `AuditCrash.OpenPlain` | crates/edge-adapters/src/audit_ledger.rs:1127-1191 | opening the files of a whole log gives that log, with or without a recovery context |
| `AuditCrash.CrashConsistency` | crates/edge-adapters/src/audit_ledger.rs:1193-1404 | stop an append at any point whose cut is vouched for and whose frames are within the scan limit: reopening succeeds and holds exactly what was whole on disk |
| `AuditCrash.RecoverableExactly` | crates/edge-adapters/src/audit_ledger.rs:1610-1778 | files that break off inside a frame can be recovered if and only if their frames, and one more for a tail as long as an empty frame, are within the scan limit |
| `AuditCrash.CrashScannable` | crates/edge-adapters/src/audit_ledger.rs:1193-1404 | from a log below the scan limit no crash point passes it: what retention removes makes up for its checkpoint |
| `AuditCrash.PlannedLinked` | crates/edge-adapters/src/audit_ledger.rs:1193-1297 | the frames an append sets out to write continue the hash chain, whatever retention removes in between |
| `AuditCrash.CutAnchoredExactly` | crates/edge-adapters/src/audit_ledger.rs:1386-1404 | the files after j of k removals are anchored if and only if the log before the append already had a checkpoint for that cut |
| `AuditBounds.OneAtATime` | crates/edge-adapters/src/audit_ledger.rs:1332-1376 | from a bounded ledger retention removes exactly one segment, so every cut is covered |
| `AuditBounds.AppendBounded` | crates/edge-adapters/src/audit_ledger.rs:1270-1297 | an append keeps the segment count, the segment sizes and the total within the limits |
| `AuditHistory.RetainedKeeps` | crates/edge-adapters/src/audit_ledger.rs:1193-1404 | a system whose steps drop from the front and add at the end retains a suffix of its history over any run |
| `AuditHistory.PlaceOf` | crates/edge-adapters/src/audit_ledger.rs:1193-1404 | whatever a step added has one place in that history |
| `AuditHistory.HistoryChained` | crates/edge-adapters/src/audit_ledger.rs:1193-1404 | if every step continues a chain and none empties it, the whole history is one chain, whatever was dropped |
| `AuditRuns.RunKeepsHistory` | crates/edge-adapters/src/audit_ledger.rs:1127-1404 | over any run of appends, crashes and reopenings everything ever durable is one hash chain, and the retained frames are a suffix of it; if a part is missing, a retained checkpoint names the sequence and the hash of its last frame |
| `AuditRuns.HistoryLinked` | crates/edge-adapters/src/audit_ledger.rs:1193-1404 | the first half of that: the history of a run is one hash chain |
| `AuditRuns.RunCounts` | crates/edge-adapters/src/audit_ledger.rs:1193-1404 | over any run the head goes up by exactly the number of frames made durable |
| `AuditRuns.HeadCounts` | crates/edge-adapters/src/audit_ledger.rs:1193-1404 | a log holds no more frames than its head counts, and exactly as many while it starts at its first segment |
| `AuditRuns.AcknowledgedSurvives` | crates/edge-adapters/src/audit_ledger.rs:1193-1404 | an acknowledged record keeps its place in that history over any run; at the end it is still retained, or a retained checkpoint names the last frame of the removed part it lies in |
| `AuditLimit.ScanLimited` | crates/edge-adapters/src/audit_ledger.rs:1610-1778 | a lower scan limit gives the same answer on any files, or refuses them for their number of frames |
| `AuditLimit.ReadsBackExactly` | crates/edge-adapters/src/audit_ledger.rs:1610-1778 | the scan of the files of a well-formed log gives that log if it has at most as many frames as the limit, and is refused for their number otherwise |
| `AuditLimit.ReopensExactly` | crates/edge-adapters/src/audit_ledger.rs:1127-1191 | the same of opening, with or without a recovery context: it succeeds if and only if the frames are within the scan limit |
| `AuditLimit.CutIsLost` | crates/edge-adapters/src/audit_ledger.rs:1386-1404 | a partial removal that no checkpoint vouches for is not opened, whatever the scan limit |
| `AuditLimit.UnanchoredCutIsLost` | crates/edge-adapters/src/audit_ledger.rs:1386-1404 | below the scan limit such files are refused for their chain |
| `AuditLimit.TailReopensExactly` | crates/edge-adapters/src/audit_ledger.rs:1127-1191 | the files of a log that break off inside a frame open if and only if the frames, and one more for a tail of 88 bytes or more, are within the scan limit; otherwise they are refused for their number |
| `AuditLimit.CrashReopensExactly` | crates/edge-adapters/src/audit_ledger.rs:1193-1404 | a crash point reopens if and only if it is not an unvouched partial removal and its files are within the scan limit |
| `AuditLimit.CrashSafeExactly` | crates/edge-adapters/src/audit_ledger.rs:1193-1404 | every crash point of an append reopens if and only if the log vouches for each partial removal and is below the scan limit |
| `AuditBounds.FramesTakeBytes` | crates/edge-adapters/src/audit_ledger.rs:1582-1598 | each frame of a log takes at least a header and a hash of its files |
| `AuditRuns.CountableSteady` | crates/edge-adapters/src/audit_ledger.rs:1193-1224 | a run that the sequence numbers and file names have room for can make each of its appends |
| `AuditRuns.RunReopens` | crates/edge-adapters/src/audit_ledger.rs:1127-1404 | a run of appends of any length succeeds while the counters last, and opening its files gives back the log the ledger holds if and only if that log is within the scan limit; bounded stays bounded |
| `AuditRuns.BoundedRunReopens` | crates/edge-adapters/src/audit_ledger.rs:1127-1404 | where the total limit allows no more frames than a scan takes, every run from a bounded ledger reopens |
| `AuditRuns.BoundedRunSurvivesCrash` | crates/edge-adapters/src/audit_ledger.rs:1127-1404 | after any run from a bounded ledger one more append may stop anywhere at all and the ledger reopens; the scan limit is asked of the stopped ledger only, or of the total limit once |
| `AuditLoss.NoCutVouched` | crates/edge-adapters/src/audit_ledger.rs:1386-1404 | a log without checkpoints vouches for no cut |
| `AuditLoss.CrashAfterRotation` | crates/edge-adapters/src/audit_ledger.rs:1299-1325 | a crash after the new segment was created and before its checkpoint reopens with one segment too many |
| `AuditLoss.CrashBetweenRemovals` | crates/edge-adapters/src/audit_ledger.rs:1386-1404 | from such a ledger a crash between two removals leaves files that never open, whatever the scan limit |
| `AuditLoss.TwoCrashesLoseTheLedger` | crates/edge-adapters/src/audit_ledger.rs:1270-1404 | from any full, never pruned ledger the two crashes lose it, with every step before acknowledged |
| `AuditLoss.FreshLedgerLost` | crates/edge-adapters/src/audit_ledger.rs:1127-1404 | the same from an empty directory, for every codec, hash, record and limits with room for full segments before the scan limit: the appends that lead there |
| `AuditLoss.ScanLimitPassed` | crates/edge-adapters/src/audit_ledger.rs:1193-1297 | where full segments hold more records than the scan limit, a fresh ledger acknowledges appends, never pruned and within its bounds, until its files no longer open |
| `AuditLoss.DefaultsPassScanLimit` | crates/edge-adapters/src/audit_ledger.rs:788-820 | with the default limits this holds for every record in a frame of up to 1,341 bytes |
| `AuditStates.DegradedIsFinal` | crates/edge-adapters/src/audit_ledger.rs:874-895 | no event leaves the degraded or the closed state |
| `AuditStates.PublishedMeansSynced` | crates/edge-adapters/src/audit_ledger.rs:874-895 | a head is published only right after encode, append and sync, in this order |
| `AuditEffects.PruneEnds` | crates/edge-adapters/src/audit_ledger.rs:1386-1404 | retention with any fault went through, or stopped with the files of its crash point |
| `AuditEffects.RecordEnds` | crates/edge-adapters/src/audit_ledger.rs:1226-1268 | the record's write with any fault went through, or stopped with the files of its crash point |
| `AuditEffects.PreparationEnds` | crates/edge-adapters/src/audit_ledger.rs:1270-1297 | storage preparation with any fault went through, or stopped with the files of its crash point |
| `AuditEffects.EffectMatches` | crates/edge-adapters/src/audit_ledger.rs:1193-1404 | every file fault stops the append at one of the crash points, or the append is the one on the log |
| `AuditMemory.ImageMirrors` | crates/edge-adapters/src/audit_ledger.rs:1127-1191 | what a scan loads mirrors the scanned log |
| `AuditMemory.MirrorIsImage` | crates/edge-adapters/src/audit_ledger.rs:1610-1778 | conversely, memory that mirrors a log whose last segment holds frames is the image a scan loads |
| `AuditMemory.MirrorRebuilds` | crates/edge-adapters/src/audit_ledger.rs:1610-1778 | a scan of the files rebuilds exactly the records, owners, descriptors, head and last hash held in memory, if and only if the records are within the scan limit |
| `AuditMemory.FrameMirrored` | crates/edge-adapters/src/audit_ledger.rs:1250-1268 | the in-memory updates after a write mirror the longer log |
| `AuditMemory.RotationMirrored` | crates/edge-adapters/src/audit_ledger.rs:1311-1324 | the in-memory updates of a rotation mirror the rotated log |
| `AuditMemory.CutMirrored` | crates/edge-adapters/src/audit_ledger.rs:1391-1404 | dropping the removed segments' records mirrors the shorter log |
| `AuditLedger.FileAuditLedger.constructor` | crates/edge-adapters/src/audit_ledger.rs:1127-1191 | memory, files and log of a ledger that takes over a scanned log agree |
| `AuditLedger.FileAuditLedger.WriteBytes` | crates/edge-adapters/src/audit_ledger.rs:1236-1252 | the write and the sync leave the files and the writer state of the fault |
| `AuditLedger.FileAuditLedger.AppendEncoded` | crates/edge-adapters/src/audit_ledger.rs:1226-1268 | the log, files, memory and reply are those of the write effect; a failure leaves memory as it was |
| `AuditLedger.FileAuditLedger.RotateSegment` | crates/edge-adapters/src/audit_ledger.rs:1299-1325 | the new state or the error is that of the rotation effect |
| `AuditLedger.FileAuditLedger.ChooseRemoval` | crates/edge-adapters/src/audit_ledger.rs:1332-1376 | the loop returns the removal count and the checkpoint payload the search defines |
| `AuditLedger.FileAuditLedger.DeleteFiles` | crates/edge-adapters/src/audit_ledger.rs:1391-1395 | the files of the listed segments go, in order, up to the one that fails |
| `AuditLedger.FileAuditLedger.RetainRecords` | crates/edge-adapters/src/audit_ledger.rs:1396-1402 | exactly the records of the removed segments go |
| `AuditLedger.FileAuditLedger.RemoveSegments` | crates/edge-adapters/src/audit_ledger.rs:1386-1404 | files and memory after the removal are those of the removal effect; the head's sequence stays |
| `AuditLedger.FileAuditLedger.RetainFor` | crates/edge-adapters/src/audit_ledger.rs:1332-1404 | retention ends as its effect says, with a published head when it succeeds |
| `AuditLedger.FileAuditLedger.PrepareStorage` | crates/edge-adapters/src/audit_ledger.rs:1270-1297 | preparation ends as its effect says, and any failure degrades the writer |
| `AuditLedger.FileAuditLedger.Append` | crates/edge-adapters/src/audit_ledger.rs:1193-1224 | nothing changes on a refused record; otherwise it is the append on the log or it stops at the fault's crash point, degraded; after an acknowledged append a scan of the files rebuilds exactly the memory, if and only if it is within the scan limit |
| `AuditLedger.FileAuditLedger.AppendAfter` | crates/edge-adapters/src/audit_ledger.rs:1424-1457 | refused with nothing changed unless the head is the expected one; otherwise it is the append |
| `AuditLedger.FileAuditLedger.Open` | crates/edge-adapters/src/audit_ledger.rs:1127-1191 | any files: refused with the error of the options, the numbering or the scan, or a ledger that holds the log of its files, followed by a recovery record exactly when bytes were cut |
| `AuditLedger.AcceptedStands` | crates/edge-adapters/src/audit_ledger.rs:1610-1778 | the log of any accepted files is well-formed if and only if no segment before the last is empty, and not all are unless they start with segment 1 |
| `AuditLedger.LeftBehindResumes` | crates/edge-adapters/src/audit_ledger.rs:1127-1191 | the files a ledger leaves behind, whole or broken off, can take the recovery record |
| `AuditQueries.PagingComplete` | crates/edge-adapters/src/audit_ledger.rs:1461-1515 | the first page and its cursors list exactly the matching records, newest first |
| `AuditQueries.FollowIsQueries` | crates/edge-adapters/src/audit_ledger.rs:1461-1515 | each page of that listing is a query's answer, and the cursor it returns is accepted |
| `AuditQueries.FollowIsEverything` | crates/edge-adapters/src/audit_ledger.rs:1461-1515 | following the cursors gives the one unlimited selection |
| `AuditQueries.CursorDescends` | crates/edge-adapters/src/audit_ledger.rs:1494-1514 | every cursor lies below the one before it |
| `AuditQueries.PageStable` | crates/edge-adapters/src/audit_ledger.rs:1461-1515 | records added at the end change neither the page a cursor asks for nor its next cursor |
| `AuditShared.LedgerPageStable` | crates/edge-adapters/src/audit_ledger.rs:1461-1515 | the same for the ledger, over one append without retention |
| `AuditShared.LedgerPagesStable` | crates/edge-adapters/src/audit_ledger.rs:1461-1515 | and over any number of such appends |
| `AuditShared.LedgerPagingComplete` | crates/edge-adapters/src/audit_ledger.rs:1461-1515 | following the cursors of any well-formed ledger reads exactly its matching records |
| `AuditOperations.IncompleteOperations` | crates/edge-adapters/src/audit_ledger.rs:1516-1538 | the two passes return the intents of the operations without a later terminal or reconciliation, in order |
| `AuditOperations.UnresolvedReconciliations` | crates/edge-adapters/src/audit_ledger.rs:1539-1560 | exactly the records that are the last and unknown reconciliation of their operation, one per operation, in the order of the operation ids |
| `AuditOperations.UnresolvedByOperation` | crates/edge-adapters/src/audit_ledger.rs:1539-1557 | the loop maps each such operation to that record |
| `AuditOperations.ClosingFinishes` | crates/edge-adapters/src/audit_ledger.rs:1516-1538 | after a terminal or reconciliation none of the operation's intents is listed |
| `AuditOperations.IntentIsListed` | crates/edge-adapters/src/audit_ledger.rs:1516-1538 | an intent just written is listed last |
| `AuditShared.AppendExtends` | crates/edge-adapters/src/audit_ledger.rs:1193-1224 | an append leaves its record at the end of the chain, next to the previous frame but for one checkpoint |
| `AuditShared.HeadStays` | crates/edge-adapters/src/audit_ledger.rs:985-1012 | while the head is the same, every call in between was refused and the log is the same |
| `AuditShared.TerminalFollowsIntent` | crates/edge-adapters/src/audit_ledger.rs:985-1012 | in any interleaving, a terminal acknowledged with the head of its intent follows that intent directly, but for at most one checkpoint |
| `AuditClones.OneTurn` | crates/edge-adapters/src/audit_ledger.rs:985-1012 | whatever a call does to the ledger behind the lock, with any file fault, is one turn of such an interleaving |
| `AuditClones.SharedFileAuditLedger.Answer` | crates/edge-adapters/src/audit_ledger.rs:985-1012 | everything the shared object has served, from its construction on, is such an interleaving, with its replies |
| `ProbePool.WorkerState.Submit` | crates/edge-adapters/src/health_probe_worker_pool.rs:143-157 | accepted, saturated or closed, with the queue and the counter after it |
| `ProbePool.WorkerState.Take` | crates/edge-adapters/src/health_probe_worker_pool.rs:208-223 | the oldest request, a wait or the end |
| `ProbePool.WorkerState.Cancel` | crates/edge-adapters/src/health_probe_worker_pool.rs:158-170 | the queue is emptied, its slots are given back and their number returned |
| `ProbePool.WorkerState.Release` | crates/edge-adapters/src/health_probe_worker_pool.rs:61-66 | one slot is given back |
| `ProbePool.StepKeeps` | crates/edge-adapters/src/health_probe_worker_pool.rs:45-223 | every step of every thread keeps the invariant of counter, queue, records and wakeups |
| `ProbePool.SendNeverBlocks` | crates/edge-adapters/src/health_probe_worker_pool.rs:109-142 | in every reachable state the slots in use are within the capacity and a worker with a completion can send it |
| `ProbePool.NoSaturation` | crates/edge-adapters/src/health_probe_worker_pool.rs:55-66 | no subtraction of a slot ever goes below zero |
| `ProbePool.RequestsConserved` | crates/edge-adapters/src/health_probe_worker_pool.rs:143-186 | accepted requests are the taken, cancelled and queued ones in order, and each taken one is probed once |
| `ProbePool.QueuedIsServed` | crates/edge-adapters/src/health_probe_worker_pool.rs:208-223 | no wakeup is lost: a queued request has an awake worker or a notification on its way |
| `ProbePool.JoinBounded` | crates/edge-adapters/src/health_probe_worker_pool.rs:158-186 | while shutdown joins, the workers take a bounded number of further steps in any order |
| `ProbePool.JoinCompletes` | crates/edge-adapters/src/health_probe_worker_pool.rs:158-186 | and they can always finish by themselves, without a spurious wakeup, with nobody draining completions |
| `ProbePool.JoinedConserves` | crates/edge-adapters/src/health_probe_worker_pool.rs:158-186 | after the join every accepted request was probed or cancelled, each once |
| `Activation.PlanIsFresh` | apps/edge-proxy/src/health_runtime.rs:189-218 | preparation takes two new health generations and changes nothing else |
| `Activation.NewerIsNotStale` | crates/edge-core/src/lib.rs:1769-1786 | a newer generation is never refused as stale |
| `Activation.AllOrNothing` | apps/edge-proxy/src/main.rs:951-1306 | after an apply, from a consistent state or not, the candidate is everywhere or the previous configuration is, except for the two failed compensations; an apply that reaches the core and is not left half way makes the pieces agree again |
| `Activation.AnswersExactly` | apps/edge-proxy/src/main.rs:951-1306 | exactly when an apply is accepted and when either compensation fails, from a consistent state or not; staleness is never the answer |
| `Activation.RunTogether` | apps/edge-proxy/src/main.rs:951-1306 | over any run of commands the mirror holds the configuration of the last accepted apply, and so do core and health controller unless a compensation failed and no later apply settled |
| `Activation.CoreRuntime.ActivateGeneration` | crates/edge-core/src/lib.rs:1454-1505 | the core's new state and answer |
| `Activation.HealthController.Prepare` | apps/edge-proxy/src/health_runtime.rs:189-218 | a new generation, or the refusal, with the allocator moved on |
| `Activation.HealthController.Commit` | apps/edge-proxy/src/health_runtime.rs:225-251 | the new runtime and registry, or the failure with the old ones |
| `Activation.CommandClient.SendApply` | apps/edge-proxy/src/main.rs:951-1306 | the method ends in the world and the answer the apply function gives |
| `Activation.CommandClient.SendInstall` | apps/edge-proxy/src/main.rs:1008-1152 | the same for an installation of certificates |
| `Manifest.ManifestRoundTrip` | crates/edge-adapters/src/backup.rs:1194-1349 | a manifest within the limits is encoded and decoded to itself |
| `Manifest.DecodeSound` | crates/edge-adapters/src/backup.rs:1250-1349 | only encodings decode, but for the admin byte, which may be any nonzero byte |
| `Manifest.BodyRoundTrip` | crates/edge-adapters/src/backup.rs:1250-1349 | a manifest within limits is read back whatever nonzero byte stands for an initialised admin |
| `Manifest.ReencodesExactly` | crates/edge-adapters/src/backup.rs:1258-1258 | a decoded manifest encodes to the same bytes if and only if its admin byte was 0 or 1 |
| `Manifest.DigestInputInjective` | crates/edge-adapters/src/backup.rs:1194-1249 | manifests with the same digest input differ at most in the digest |
| `ManifestCodec.DecodeManifest` | crates/edge-adapters/src/backup.rs:1250-1349 | the reading loops compute the decoder function, on every input |
| `ManifestCodec.EncodeManifest` | crates/edge-adapters/src/backup.rs:1194-1249 | the writing loops compute the encoder function, on every manifest |
| `Archive.ArchiveRoundTrip` | crates/edge-adapters/src/backup.rs:67-136 | reading a written archive gives the manifest and every payload once, in order |
| `Archive.ExtensionRejected` | crates/edge-adapters/src/backup.rs:124-136 | an accepted body with anything after it is refused as malformed |
| `Archive.PrefixRejected` | crates/edge-adapters/src/backup.rs:67-136 | every strict prefix of an accepted body is refused as cut short |
| `Archive.ArchiveWriter.Open` | crates/edge-adapters/src/backup.rs:1126-1150 | the stream holds the magic, the length and the manifest, or nothing changes |
| `Archive.ArchiveWriter.WriteRecord` | crates/edge-adapters/src/backup.rs:1151-1160 | one record is added at the end of the stream |
| `Archive.ArchiveWriter.Finalize` | crates/edge-adapters/src/backup.rs:1161-1168 | the stream is closed and kept |
| `Archive.WriteArchive` | crates/edge-adapters/src/backup.rs:1126-1168 | writing manifest and records produces the archive body |
| `Archive.ReadArchiveRecords` | crates/edge-adapters/src/backup.rs:67-136 | the reading loop computes the archive reader function, on every input |
| `RestorePublish.TreeSurvives` | crates/edge-application/src/backup.rs:135-310 | whatever fails or stops, with or without a readable revision in the old tree: the old tree is at exactly one of target and rollback until a commit; while recovery does not misread a damaged target, an intact tree is at one of them throughout and a finished run has one in place |
| `RestorePublish.OldTreeSurvives` | crates/edge-application/src/backup.rs:135-310 | for every run, whatever recovery reads: without a commit the old tree is intact at exactly one place, and in place once the run is finished |
| `RestorePublish.RollbackIdempotent` | crates/edge-adapters/src/backup.rs:569-586 | calls that stop anywhere followed by one that runs to its end put the old tree back |
| `RestorePublish.RecoverySafeExactly` | crates/edge-application/src/backup.rs:264-310 | recovery keeps an intact tree if and only if the target is not a damaged tree that the journal and the reserve make it commit |
| `RestorePublish.DamagedTargetCommitted` | crates/edge-application/src/backup.rs:264-310 | a run in which recovery commits a half-deleted target and deletes the only intact tree |
| `RestorePublish.AmbiguousExactly` | crates/edge-application/src/backup.rs:264-310 | with a valid old tree recovery gives up exactly when the target was moved, is back in place and no valid rollback directory is there; with an old tree that is not valid, everywhere but where the stage is recorded as published and valid |
| `RestorePublish.UnreadableOldUnresolved` | crates/edge-application/src/backup.rs:264-310 | a run over an old tree without a readable revision that no recovery resolves |
| `RestorePublish.CommitReportedExactly` | crates/edge-application/src/backup.rs:264-310 | a first commit report has the new tree in place if and only if the target is not misread and a rollback directory is there |
| `RestorePublish.CommitSettles` | crates/edge-application/src/backup.rs:264-310 | from that report on no step changes the target |
| `RestorePublish.RolledBackReportedAsCommit` | crates/edge-application/src/backup.rs:264-310 | a run in which a finished rollback is reported as a commit |
| `RestorePublish.Publisher.MoveTargetToRollback` | crates/edge-adapters/src/backup.rs:544-548 | the target becomes the rollback directory |
| `RestorePublish.Publisher.PublishStage` | crates/edge-adapters/src/backup.rs:549-553 | the stage becomes the target |
| `RestorePublish.Publisher.RollbackAfterFailure` | crates/edge-adapters/src/backup.rs:569-586 | stopped after any number of file operations, the directories are those of that many rollback steps |
| `HealthReader.ReadHealthStatus` | crates/edge-adapters/src/health_probe_transport.rs:203-237 | the loop gives the one-shot answer for every way the bytes are split into reads |
| `HealthReader.ReadTlsHealthStatus` | crates/edge-adapters/src/health_probe_transport.rs:154-194 | the TLS loop gives the one-shot answer for every arrival of plaintext |
| `HealthReader.AcceptedExactly` | crates/edge-adapters/src/health_probe_transport.rs:239-262 | a line is accepted if and only if it is UTF-8 and its first two words are the version and the digits of a code from 100 to 599 |
| `HealthReader.StatusLineAccepted` | crates/edge-adapters/src/health_probe_transport.rs:239-262 | a status line by section 4 of RFC 9112 is accepted if and only if its reason phrase is UTF-8 and its code in range |
| `HealthReader.CompleteResponse` | crates/edge-adapters/src/health_probe_transport.rs:203-262 | a whole response within the header limit is answered with its code |
| `Journals.HexRoundTrip` | crates/edge-adapters/src/backup.rs:1680-1692 | decoding the hexadecimal of any bytes gives the bytes |
| `Journals.PanicsExactly` | crates/edge-adapters/src/backup.rs:1683-1692 | decoding panics if and only if the first pair that is not hexadecimal cuts a character |
| `Journals.FillMap` | crates/edge-adapters/src/backup.rs:428-437 | the line loop fills the key map the specification defines, or refuses |
| `Journals.JournalRoundTrip` | crates/edge-adapters/src/backup.rs:394-437 | loading printed keys and values gives exactly those values |
| `RestoreJournal.TransactionRoundTrip` | crates/edge-adapters/src/backup.rs:394-468 | a persisted transaction loads under its own operation id and is refused under any other |
| `RestoreJournal.LoadedPersists` | crates/edge-adapters/src/backup.rs:421-468 | whatever loads can be persisted and loaded again |
| `RestoreJournal.LoadPanicsExactly` | crates/edge-adapters/src/backup.rs:421-468 | loading panics if and only if the text has the journal's shape and the first unreadable identifier cuts a character |
| `RestoreJournal.PanickingText` | crates/edge-adapters/src/backup.rs:421-468 | whole journal texts on which loading panics |
| `UpgradeJournal.UpgradeRoundTrip` | crates/edge-adapters/src/operational_upgrade.rs:401-467 | a persisted upgrade journal loads under its own operation id if and only if it takes at most 4096 bytes |
| `UpgradeJournal.LongBackupIsLost` | crates/edge-adapters/src/operational_upgrade.rs:401-467 | a journal with a backup id of 2048 bytes is accepted, written and cannot be loaded |
| `UpgradeJournal.LongBackupExists` | crates/edge-adapters/src/operational_upgrade.rs:401-418 | such a journal is valid |
| `UpgradeJournal.LoadPanicsExactly` | crates/edge-adapters/src/operational_upgrade.rs:420-493 | loading panics if and only if the operation, or after a readable operation the backup, cuts a character |
| `UpgradeJournal.PanickingText` | crates/edge-adapters/src/operational_upgrade.rs:420-493 | whole journal texts on which loading panics |
| `TrustCache.Plan` | crates/edge-application/src/upstream_tls.rs:15-49 | a plan exists if and only if every upstream parses, its scheme fits its policy and no key repeats; it is one requirement per authenticated upstream |
| `TrustCache.PlanPassesCheck` | crates/edge-core/src/tls_registry.rs:77-93 | a registry with the keys of a plan passes the runtime's completeness check |
| `TrustCache.SortOrdered` | crates/edge-application/src/upstream_tls.rs:47-48 | the sorted plan is in order and has the same requirements |
| `TrustCache.TrustBundleCache.Load` | apps/edge-proxy/src/main.rs:850-866 | a reference is read at most once, and the cache holds what the reader answered then |
| `TrustCache.TrustBundleCache.PrepareUpstreams` | apps/edge-proxy/src/main.rs:1434-1472 | both registries hold the same keys and factories, each from the cached bundle; or the reason why not |
| `TrustCache.TrustBundleCache.PrepareListeners` | apps/edge-proxy/src/main.rs:799-832 | each listener has the factory of its client authentication, from the cached bundle; or the reason why not |
| `TrustCache.TrustBundleCache.PrepareGeneration` | apps/edge-proxy/src/main.rs:1490-1517 | outbound and inbound use together read each reference exactly once, even when the store changes meanwhile; with a store that stands still it succeeds if and only if the store has every bundle and each is usable |
| `TrustCache.PrepareSnapshot` | apps/edge-proxy/src/main.rs:1490-1517 | from a snapshot to its generation: a snapshot that cannot be planned reads nothing, a ready generation passes the runtime's check, and with a store that stands still it is ready if and only if the plan and the store allow it |
| `TrustCache.PreparedExactly` | apps/edge-proxy/src/main.rs:1490-1517 | with a store that stands still, preparation succeeds if and only if the store has every bundle and each is usable |

## Left out

Hypotheses that the results carry:

- Legal: an append is stated for records that are not retention checkpoints, timestamps below 2^64, a record codec that reads back what it wrote, and the two conditions below.
- Spacious: any checkpoint fits the payload limit and fits one segment together with the next frame; the code relies on this without checking it.
- Countable: the 64 bits of the sequence and the sixteen digits of a segment file name are not used up by the next frames; append does not check the latter. `AuditRuns.Steady` asks it before each append of a run.
- Scannable: the scan limit is asked where files have to open again, of the files at the crash point; `AuditLimit.CrashReopensExactly` shows that this cannot be dropped.
- Roomy: the total limit leaves room for the maximal number of full segments, as the defaults do; only the bounded results need it.
- CanStop: a crash between two removals is admitted in a run only when the log vouches for that cut; `AuditLimit.CrashSafeExactly` shows that this cannot be dropped, and `AuditLoss.FreshLedgerLost` what happens without it.
- Honest: what `RestorePublish.TreeSurvives` says of runs with a commit is for those in which recovery does not misread a damaged target; `RestorePublish.RecoverySafeExactly` shows that this cannot be dropped.
- RestorePublish.RollbackIdempotent: the last call is allowed five file operations, which is what it needs in the model's two-step deletion.

What the model does not capture:

- The file system: operations reach the disk in program order, a synced write is durable, a rename is atomic, and deletion of a tree leaves it damaged in between. Reordering by the operating system, permissions, ownership and symbolic links are not modelled.
- AuditShared.TerminalFollowsIntent: a failed file operation is a given error and a given log that is the same, has one more empty segment, or has a later head; which files it leaves is stated by `AuditEffects`. After a failure `AuditClones` keeps only the head of the ledger, since no later call is acknowledged.
- The storage maintenance reducer of `prepare_storage`: its transitions only follow the control flow of that function; that segments go only after their checkpoint is stated by `AuditCrash.CrashFrames`.
- AuditLedger.FileAuditLedger.Open: where bytes are cut off, the rest is taken to be filled and the recovery record to be appendable (`Resumable`); a ledger opened on accepted files with an empty segment before the last, which no ledger writes, agrees with them, and what its appends do is not stated.
- Discovering segment files by their names, the hexadecimal of hashes inside records, the JSON of records, and `verify`, which repeats the scan.
- Admission control around the shared ledger, and a poisoned lock.
- ProbePool: requests are opaque and probing always ends; how long a probe takes and the timeout of `recv_timeout` are not modelled. Lock poisoning is not modelled.
- Activation: snapshots, registries and causes of failure are opaque values; every step's outcome is an argument.
- Archive: the stream is the decrypted one; age encryption, the digests of payloads, the callback that accepts records, and publishing and cleaning up the output file are not modelled.
- RestorePublish: the contents of a directory are old or new and whole or damaged; the new tree, whose configuration was validated before, has a readable current revision; provenance records and the check of the published target are not modelled, a failing one is the step `Fail`.
- HealthReader: connecting, writing the request, the TLS handshake and deadlines are not modelled; a stream ends, times out or fails after its bytes.
- Journals: writing through a temporary file, permissions and a missing file are not modelled.
- TrustCache: identifiers and bundles are numbers, which are only compared and copied; parsing a URL, building TLS configurations and the registry of listeners by address are not modelled.
- The routing, proxying, certificate management, configuration store and administration interface of the proxy.
