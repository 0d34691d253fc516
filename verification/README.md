# SQLite backup pipeline: a verified model

The repository copies SQLite databases to dated snapshot files, uploads the newest ones to S3,
recovers them on a fresh machine, and keeps replicas in step over a small preamble protocol.
This project models the parts of it whose correctness rests on names, orders, atomic file steps
and two-party protocols, and proves what they are for. SQLite, gzip, age, the S3 client, SSH and
rsync enter only as contracts.

`dafny verify dfyconfig.toml` checks everything.

## How it is organised

Five components, each on its own foundations.

**Local snapshot engine** (`internal/localcopy`)

- `Text`, `Calendar`: byte-order of strings, fixed-width decimals, the proleptic Gregorian calendar
  from year 0 to 9999, and the layout `20060102T150405Z` printed and parsed field by field.
  An instant is a number of nanoseconds since Go's zero time. `Stamps`: which stamps exist and
  which instants they are, by the Gregorian rule, one known instant and the next day.
- `BackupName`, `NameSpace`: the filename grammar, and why the five names one cycle touches
  (snapshot, staging file, temp dump, and for an uncompressed entry `latest-<id>` and
  `latest-<id>.tmp`) never meet another ID's, with one exception. IDs are kept per directory.
- `FileNames`: why a file is its directory and its name, and what an ID with a slash does.
  `Documented`: the names of the whole pipeline, spelled out.
- `FileSystem`: names, inodes and contents with `open`, write, `unlink`, `link` and `rename` as in
  the System Interfaces volume of POSIX.1-2024, the same-inode no-op of `rename` included.
- `Cycle`: what one cycle and one pass do, as the list of disk states they go through. Every
  answer of the operating system is an input (`Plan`), so every step may fail; a crash may leave
  the disk in any state of the list.
- `CrashSafety`, `Runs`, `Schedule`: what every state of every cycle, pass and run keeps.
  `LinkLimits`: exactly which latest links stay.
  `Tidiness`, `Spacing`, `Order`, `OrderOfPass`: what needs names and inodes only, so it holds even
  where a stream was left incomplete. `Success`: when a cycle succeeds, and what a pass makes of
  each entry.
- `Scan`: the directory scans. `Engine`: the classes that change a mounted volume in place, each
  method proved to leave exactly the trail of states `Cycle` describes.

**S3 chain** (`s3`, `cmd/s3/download/recover`): `S3Key` (path cleaning, pads, keys, listing order),
`Upload` (selection, HEAD and PUT over histories of passes), `EncryptPipe` (the pipe between
encryption and request), `EncryptedUpload` (the pipe inside the upload), `Recover`, `EndToEnd`,
`RecoverSteps` (download, glob, decrypt, gunzip, find), `RecoveryLimits` (exactly which labels can
be recovered), `Directories` (what cleaning, directory and base keep of a path, and that a database
is restored beside the file that is uploaded).

**Sync preamble and origin shutdown**: `Label`, `Preamble`, `PreambleSteps` (each side's code as a
run of the protocol), `PreambleConnection` (both on one connection), `OriginShutdown`.

**Replica scheduler**: `ReplicaSchedule`.

**Printers and bounded loops**: `ShellQuote` against a POSIX shell reader, `OnlineCopy`.

## What the code needs of its configuration

These are hypotheses of the theorems, because the code relies on them without checking them.

- Backup IDs (`GoodId`): nonempty, no newline, no slash, containing a dash (the printer
  `<label>-<basename>` always gives one) and not starting with `latest-`. Destination strings that
  differ are different directories, that is, differ after cleaning and are not linked to one another.
  `FileNames.SameFile` shows that directory and name then identify a file.
- Spacing, the time of the link and the order theorems also need each ID to be kept in one directory
  only, since the scan records snapshots by ID alone (`Cycle.Decides` says which directory decides
  otherwise). The order theorems need the IDs of a pass to differ and no two uncompressed entries of
  one directory to have IDs of which one is the other plus `.tmp`.
- `backup.LatestFmt` lives in another module and is taken as `latest-` followed by the ID.
- Clock readings have a year in 0..9999. The spacing and link-time theorems need a reading of at
  least one second past Go's zero time, since the scan reads the zero time as "none".
- For completeness of snapshots, closing the gzip stream succeeds. `Runs.PassSafe` shows that this is
  exactly what is needed. Spacing, order independence, failure isolation and
  `LinkLimits.LinkStaysExactly` do without it.
- A failed sync leaves the replica file's time as it was, and a successful one sets it while it runs.
- A provider stores a body only when it has its end, or the announced length, or reports success.
- S3 labels are ordinary path segments without glob characters, and no label that shares a
  directory with another starts with that label and a dash. Pads have twelve digits. Uploaded files
  end in `.db` or `.bck.gz` and hold what the ending says.
- A successful `Copy` means a complete snapshot; age and gzip invert.
- File steps take effect in the order they are issued. A crash ends the process; it does not undo or
  reorder steps already taken.

## Where the code falls short of its description

Each is a theorem with the exact condition.

- A gzip stream whose close fails is still promoted, and the scan accepts the incomplete file
  (`CrashSafety.CompressedUnsafe`). A pass keeps every state safe if and only if it promotes no such
  stream (`Runs.PassSafe`).
- The comment of `linkLatest` says clients never find the link missing. The latest link of an ID stays
  in every run if and only if no uncompressed entry of the same directory has that ID without a final
  `.tmp` (`LinkLimits.LinkStaysExactly`); `LinkLimits.TmpIdLosesLink` is the run that removes it.
- The label of a backup entry is not checked. With a slash in it the files of the entry are in another
  directory, where they may be another ID's (`FileNames.SlashIdCollides`), and the scan never finds
  them: an ID can be recorded if and only if it is nonempty and has neither a newline nor a slash, and
  otherwise every pass takes it for due (`FileNames.RecordableExactly`).
- The comment of `uploadObjectEncrypted` says the length is learned by encrypting once before. Nothing
  but the whole ciphertext can be stored if and only if no length is announced or the file has not
  outgrown the announced one (`EncryptedUpload.StoresWholeExactly`).
- `sqlitersync/label.go` says a rejection is reported with its text. Without reloads a fault-free run
  can lose the text if and only if the configuration serves nothing (`Preamble.TextLostExactly`): that
  rejection is written without reading the label, so a reset may overtake it. With reloads no text is
  lost while every configuration serves something (`Preamble.TextKept`).
- Recovery restores every label after every upload history if and only if no label of a directory
  extends another one with a dash (`RecoveryLimits.RecoveryExactly`). Otherwise it reports a database
  for a label that was never uploaded, and for labels like `a` and `a-1`, both uploaded, it reports
  the database of `a-1` for `a` (`RecoveryLimits.WrongDatabaseReported`).
- The pad and name come back out of a key exactly when the name is an ordinary segment
  (`S3Key.PadAndNameOfKey`). Which labels keep their keys under `backup/`, and under the prefix that
  recovery lists, is decided by what cleaning leaves of the prefix and the label
  (`S3Key.LabelKeepsPrefix`).

## Model

| member | source | states |
|---|---|---|
| Calendar.FormatThenParse | internal/localcopy/engine.go:33-36 | what the timestamp layout prints is one stamp of the grammar and parses back to the instant cut to the second |
| Calendar.ParseThenFormat | internal/localcopy/engine.go:101-104 | every stamp that parses prints back to itself |
| Calendar.TextOrderIsTimeOrder | internal/localcopy/engine.go:34-36 | the layout is lexicographically sortable: a later second prints to a greater text |
| Stamps.ParsesExactly | internal/localcopy/engine.go:101-104 | a stamp parses if and only if its second exists: the day by the lengths of the months, 29 February in years divisible by 400 or by 4 and not by 100, the clock below 24:00:00 |
| Stamps.ClockCounts | internal/localcopy/engine.go:101-104 | a stamp is as many seconds after its midnight as its clock says |
| Stamps.NextDayIsNext | internal/localcopy/engine.go:101-104 | the stamp of the next calendar day is the instant 86400 seconds later |
| Stamps.KnownInstants | internal/localcopy/engine.go:80-82 | `19700101T000000Z` is the instant whose Unix time is zero in seconds and in nanoseconds, printed and parsed; `00010101T000000Z` is the zero time |
| Stamps.FourCenturies | internal/localcopy/engine.go:80-82 | instants 146097 days apart print the same month, day and clock, with years 400 apart |
| BackupName.FindSubmatch | internal/localcopy/engine.go:58-61 | the regular expressions match in at most one way, and the submatch is found whenever one exists |
| BackupName.RenderThenParse | internal/localcopy/engine.go:76-112 | parsing a printed name gives the ID, the compression and the second back exactly when the ID is nonempty and free of newlines, and fails otherwise |
| BackupName.ParseThenRender | internal/localcopy/engine.go:93-112 | printing a parsed file gives the original name, so no two names parse alike |
| BackupName.NamesSortByTime | internal/localcopy/engine.go:33-51 | for one ID name order is time order, across both extensions |
| BackupName.StagedNeverParses | internal/localcopy/engine.go:274-274 | no `.tmp` staging name is ever taken for a snapshot |
| BackupName.TempNeverParses | internal/localcopy/engine.go:352-354 | no temp dump name is ever taken for a snapshot |
| BackupName.LatestParsesAs | internal/localcopy/engine.go:358-360 | a latest link can parse only as a snapshot of an ID that itself starts with `latest-` |
| Documented.DocumentedId | internal/localcopy/latest.go:9-16 | the ID of `app_db` and `data/app.db` is `app_db-app.db` |
| Documented.DocumentedName | internal/localcopy/engine.go:75-82 | that ID on 1 August 2025 at 10:30:00 prints to the documented compressed name and parses back from it |
| Documented.CycleNames | internal/localcopy/engine.go:266-360 | the five names of every cycle character by character, for a source in whatever directory, the directory's name left out |
| Documented.DecimalReads | internal/localcopy/engine.go:352-354 | the printed nanoseconds read back as that number, without leading zeros |
| NameSpace.AcceptedIsNotLatest | internal/localcopy/latest.go:41-50 | an accepted snapshot name is never a latest link or its staging name |
| NameSpace.StagedIsPrivate | internal/localcopy/engine.go:320-320 | the staging name written in place is no configured snapshot, link or link staging name |
| NameSpace.TempIsPrivate | internal/localcopy/engine.go:352-354 | nor is the temp dump |
| NameSpace.CyclesApart | internal/localcopy/latest.go:9-16 | the names touched by the cycles of two IDs in one pass never coincide, unless both keep links and one ID is the other plus `.tmp` |
| NameSpace.TempApart | internal/localcopy/engine.go:352-354 | a temp dump has no name that any cycle uses in a destination directory, even if that is the temp directory |
| NameSpace.TmpIdsCollide | internal/localcopy/latest.go:14-16 | distinct labels and files for which one ID's link staging name is the other's link |
| FileNames.SameFile | internal/localcopy/engine.go:272-274 | joined paths are the same exactly for the same name in the same cleaned directory, so a file is its directory and name |
| FileNames.ElementsExactly | internal/localcopy/engine.go:318-360 | all names of a cycle are single path elements if and only if the ID has no slash |
| FileNames.SlashIdCollides | internal/localcopy/engine.go:358-360 | an ID with a slash stages its link over the latest link of an ID of another directory |
| FileNames.RecordableExactly | internal/localcopy/latest.go:33-54 | some scan records an ID if and only if the grammar holds it and it has no slash; any other ID is due in every pass |
| FileSystem.OpenStep | internal/localcopy/engine.go:474-477 | creating or truncating a private staging file keeps every snapshot complete, every link resolved, and changes one name only |
| FileSystem.StepsOfPosix | internal/localcopy/engine.go:288-296 | what each step does to its names: open and write keep the inode, a new file has an inode no name had, link never replaces, rename replaces the target and is a no-op between names of one inode |
| FileSystem.LinkStep | internal/localcopy/engine.go:409-414 | linking to a link staging name keeps the disk safe and shares the inode of the source |
| FileSystem.RenameStep | internal/localcopy/engine.go:289-289 | a rename keeps the disk safe exactly because the source holds what the target's name promises; the same-inode case is a successful no-op |
| FileSystem.RenameFrame | internal/localcopy/engine.go:402-404 | a rename changes its two names only, and the target then has the source's inode |
| CrashSafety.LinkSafe | internal/localcopy/engine.go:409-416 | in every intermediate state the link is the old one or the new snapshot; it changes in the last step only, and on success, which `Success.LinkWorks` characterises, it is the new snapshot's inode |
| Success.LinkWorks | internal/localcopy/engine.go:409-416 | with the snapshot in place the link refresh succeeds if and only if the link and the rename work and a leftover staging link, if there is one, could be removed |
| CrashSafety.PromoteSafe | internal/localcopy/engine.go:288-297 | promotion exposes the final name only with complete content, and reports success exactly when the rename happened |
| CrashSafety.UncompressedSafe | internal/localcopy/engine.go:312-348 | every state of an uncompressed cycle is safe, only its five names change, the link never moves back, and success means link and snapshot are one inode with complete content |
| CrashSafety.CompressedSafe | internal/localcopy/engine.go:266-310 | every state of a compressed cycle that promotes no unclosed stream is safe, and success means a complete snapshot |
| CrashSafety.CompressedUnsafe | internal/localcopy/engine.go:478-489 | when the close fails and the rename works the cycle succeeds with an incomplete accepted file |
| Success.UncompressedWorks | internal/localcopy/engine.go:312-348 | an uncompressed cycle succeeds if and only if the copy, the rename and the steps of the link refresh work; the snapshot is complete under its final name exactly when copy and rename worked, and otherwise snapshot and link are as before |
| Success.CompressedWorks | internal/localcopy/engine.go:266-310 | a compressed cycle succeeds if and only if the copy, the compression and the rename work, and then the final name holds the gzip stream, incomplete exactly when its close failed |
| CrashSafety.UncompressedCleansUp | internal/localcopy/engine.go:323-340 | with working removals no end of an uncompressed cycle leaves a staging file |
| CrashSafety.CompressedCleansUp | internal/localcopy/engine.go:276-308 | with working removals no end of a compressed cycle leaves the dump or, once dumped, the staging file |
| LinkLimits.LinkStaysExactly | internal/localcopy/engine.go:400-416 | the latest link of an ID, once a snapshot of it, is one in every state of every run, unclosed streams, failures and crashes included, if and only if no uncompressed entry of its directory has the ID without a final `.tmp` |
| LinkLimits.UncontestedStays | internal/localcopy/engine.go:400-416 | in every such state the link is as it was or a complete snapshot of its ID |
| LinkLimits.TmpIdLosesLink | internal/localcopy/engine.go:410-411 | otherwise one pass from a safe disk reaches a state in which the link is gone |
| Runs.PassSafe | internal/localcopy/engine.go:163-235 | a pass goes through safe states only if and only if it promotes no unclosed stream |
| Runs.PassGrows | internal/localcopy/engine.go:163-235 | in every state of a pass old snapshots are kept, and a link that changed holds the snapshot a due entry just made, which also has its own name |
| Tidiness.PassAdds | internal/localcopy/engine.go:183-232 | in every state of a pass, whatever the contents, each new snapshot name belongs to an entry that was due, and no staging name shares an inode |
| Success.PassOutcome | internal/localcopy/engine.go:163-235 | in a whole pass an entry fails if and only if no snapshot of it is younger than its frequency and a check or a step of its own cycle failed; its snapshot is there exactly when it was promoted, the link follows on success, and an entry that was skipped or refused leaves no trace |
| Success.DeactivatedIsSkipped | internal/localcopy/engine.go:183-193 | an entry without a source or a destination is skipped without a failure |
| Runs.CancelledPassIsPrefix | internal/localcopy/engine.go:176-181 | a cancelled pass is the pass over the entries before the cancellation |
| Schedule.RunSafe | internal/localcopy/engine.go:163-348 | every state of every run of passes, failures, crashes and erasures is safe |
| Schedule.RunFromNothing | internal/localcopy/engine.go:163-348 | in particular every state of every run that starts from an empty disk |
| Schedule.AcceptedFilesAreComplete | internal/localcopy/engine.go:266-348 | in any such state a name that parses for an ID of its directory holds that ID's complete snapshot of that second, and a latest link that no other ID stages over resolves to a complete uncompressed snapshot of its ID |
| Schedule.LinkRises | internal/localcopy/engine.go:400-416 | such a link, once there, is there in every later state; with frequencies of a second or more and successful scans its time never goes back |
| Schedule.StartedIsNewer | internal/localcopy/engine.go:391-398 | an entry that is due takes no older snapshot than its link already holds |
| Spacing.RunSpaced | internal/localcopy/engine.go:173-204 | in every state of every run the snapshot times of one ID are pairwise at least its whole-second frequency apart, even if the clock jumps, passes crash and files are erased |
| Spacing.SpacedFromNothing | internal/localcopy/engine.go:173-204 | in particular in every state of every run that starts from an empty disk |
| Spacing.WindowBound | internal/localcopy/engine.go:391-398 | files pairwise f apart in a window of length w number at most w/f + 1 |
| Spacing.RetentionBound | internal/localcopy/engine.go:391-398 | hence any window of any state of a run holds at most w/f + 1 snapshots of an ID |
| Spacing.DueAfterTruncation | internal/localcopy/engine.go:397-397 | a due check passed on the raw clock reading also holds for the second the name will carry |
| OrderOfPass.PassLocal | internal/localcopy/engine.go:173-235 | what an entry leaves at its names, and whether it fails, is as if it ran alone |
| OrderOfPass.FailureIsolation | internal/localcopy/engine.go:163-165 | the outcome of an entry is the same in any two passes from one disk that contain it, whatever else is configured |
| OrderOfPass.OrderIndependence | onlineapi/onlineapi.go:34-46 | every permutation of the entries of a pass leaves the same inodes and contents at every name and the same set of failures |
| OrderOfPass.LinkIsNewestSnapshot | internal/localcopy/engine.go:342-347 | after a pass that copied an uncompressed entry without error its link is the inode of its new snapshot and nothing of the ID is newer |
| Scan.ScanBackupDir | internal/localcopy/latest.go:22-56 | the map holds, for exactly the wanted IDs with a candidate, the newest one of the listing; directories and the extension gate lose nothing |
| Scan.NewestIsMaximal | internal/localcopy/latest.go:18-21 | the recorded file is a regular entry of the listing under its own name, nothing of the ID is newer, and it is absent only when no snapshot after the zero time is there |
| Scan.LatestBackupPath | internal/localcopy/latest.go:58-76 | the returned name exists in the listing and is the newest snapshot of its ID; absent exactly when there is none or the directory cannot be read |
| Scan.LatestBackupFiles | internal/localcopy/engine.go:367-389 | for every ID the map gives the newest snapshot of the last directory in name order that keeps the ID, could be listed and holds one; nothing where no directory does |
| Scan.RecordedInOneDir | internal/localcopy/engine.go:360-366 | for an ID kept in one directory that is the newest snapshot there |
| Scan.NewestTwice | internal/localcopy/latest.go:58-62 | the local jobs and the S3 job name the same newest file for the same listing |
| Scan.DueByNewest | internal/localcopy/engine.go:391-398 | checking the newest snapshot of a directory alone decides whether all its snapshots of the ID are one frequency old |
| Success.DueExactly | internal/localcopy/engine.go:391-398 | the clamped difference decides as the true one: due exactly when nothing was recorded or its age is at least the frequency, for every clock reading |
| Scan.NewestIsFirst | internal/localcopy/latest.go:51-53 | of equally new snapshots the first listed one is recorded |
| Cycle.DueInOneDir | internal/localcopy/engine.go:187-193 | an entry whose ID is kept in one directory is due exactly when that cannot be listed or all its snapshots there are one frequency old |
| Cycle.LaterDirDecides | internal/localcopy/engine.go:367-389 | of two directories that hold an ID the later one in name order decides alone |
| Scan.SortedFront | cmd/sftp/oneshot/main.go:114-116 | the descending sort keeps the names and puts the greatest first |
| Scan.PickByNameIsNewest | cmd/sftp/oneshot/main.go:107-123 | on a directory of compressed snapshots of one ID the SFTP client picks the file the scan reports |
| Engine.SnapshotEngine.LinkLatest | internal/localcopy/engine.go:409-416 | the disk and the trail of states it leaves are those of the link refresh |
| Engine.SnapshotEngine.CompressFile | internal/localcopy/engine.go:463-496 | nothing is created without a source; a stream that did not close still counts as success |
| Engine.SnapshotEngine.HandleUncompressed | internal/localcopy/engine.go:312-348 | refines the uncompressed cycle, state by state, on success and on every failure |
| Engine.SnapshotEngine.HandleCompressed | internal/localcopy/engine.go:266-310 | refines the compressed cycle, state by state, on success and on every failure |
| Engine.SnapshotEngine.LatestForJobs | internal/localcopy/engine.go:173-173 | the due check against the scanned map is, for every entry, the due check on the snapshots on disk |
| Engine.SnapshotEngine.HandleEntry | internal/localcopy/engine.go:183-232 | one turn of the loop: skipped, failed by a check, or the cycle |
| Engine.SnapshotEngine.Handle | internal/localcopy/engine.go:166-235 | refines the pass: same states, same failed IDs, same abort on cancellation |
| Engine.SafePass | internal/localcopy/engine.go:163-165 | every state the running engine goes through, from a safe disk, is safe |
| S3Key.KeyText | s3/key.go:32-38 | for ordinary label, pad and name the cleaned join is the prefix `backup/<label>/`, the pad, a slash and the name |
| Documented.DocumentedKey | s3/key.go:32-38 | the parts `app-s3`, `251611468335` and `app.db` give the documented key |
| Documented.DocumentedParts | s3/key.go:40-49 | which splits into that pad and that name |
| Documented.NoParts | s3/key.go:43-47 | a key has no pad and name exactly when it has no slash |
| S3Key.PadAndNameOfKey | s3/key.go:40-49 | splitting a key gives its pad and name back if and only if the name is an ordinary path segment, whatever the label |
| S3Key.LabelKeepsPrefix | s3/key.go:32-38 | for any label: its keys stay under `backup/` if and only if cleaning leaves `backup` in front, and under the prefix recovery lists if and only if it leaves anything |
| S3Key.DotLabelEscapes | s3/key.go:36-38 | the label of two dots leaves nothing, so its keys are outside both prefixes |
| S3Key.LaterPadFirst | s3/key.go:24-30 | over the twelve-digit range a later second gives a smaller pad |
| Documented.PadReads | s3/key.go:24-30 | for every time the pad has at least twelve characters and reads as the seconds to the end of the year 9999, with a sign after it |
| Documented.LastPad | s3/key.go:19-22 | the stamp of 9999-12-31 23:59:59 is the second whose pad is twelve zeros |
| S3Key.PadDecides | s3/key.go:28-30 | equal pads mean the same second |
| S3Key.NewerKeyFirst | s3/key.go:20-38 | under one label the key of a later second comes first whatever the names are |
| S3Key.KeyInjective | s3/key.go:36-38 | a key determines its label, pad and name |
| S3Key.ExactKeyIsFirst | s3/download/handler.go:122-124 | an exact key that is in the bucket is the first key listed under itself |
| S3Key.FirstKeyExists | s3/download/handler.go:152-163 | a prefix with a matching object has a first key |
| S3Key.PrefixIsolatesLabel | cmd/s3/download/recover/main.go:168-170 | a key under `backup/<label>/` belongs to that label only |
| Upload.NewestMatchIsMaximal | s3/upload/handler.go:164-186 | the prefix selection is a readable matching entry of maximal modification time, and none only when there is none |
| Upload.NewestMatchIsFirst | s3/upload/handler.go:164-180 | of equally new matches the first listed one is taken |
| Upload.SelectionExactly | s3/upload/handler.go:145-187 | for a prefix the selected path is the prefix's directory joined with a listed regular file whose name starts with the prefix's base and than which no such file is newer, none exactly when there is no such file or no listing; for a fixed path that file with its own time, none exactly when it does not exist |
| Directories.SelectedByPrefix | s3/upload/handler.go:155-180 | element by element the selected path is the prefix, except that its last element may go on |
| Upload.UploadHandler.FileToUpload | s3/upload/handler.go:145-187 | the same of the running loop: the directory, the base, the newest of the matching files, the path and the time, and the fixed path with its own time |
| Upload.PassAddsOnly | s3/upload/handler.go:107-139 | a pass never changes or removes an object, and every object it adds is one of its PUTs |
| Upload.EntrySettles | s3/upload/handler.go:107-138 | every entry that was reached and did not fail has its object or nothing to upload, whatever the others did |
| Upload.CleanPassSettles | s3/upload/handler.go:107-139 | so after an error-free pass every entry has |
| Upload.SettledEntryIsQuiet | s3/upload/handler.go:85-92 | with or without an entry that has its object a pass sends the same PUTs and leaves the same bucket |
| Upload.RepeatedEntryIsQuiet | s3/upload/handler.go:107-139 | so an entry that got through once sends nothing in any later pass that selects the same file for it, even if others failed then or fail now |
| Upload.RepeatedPassIsQuiet | s3/upload/handler.go:85-92 | a pass over unchanged files after an error-free one sends no PUT, whatever the provider answers and whatever was added in between |
| Upload.HistoryLogged | s3/upload/handler.go:67-139 | over any history of passes, lost acknowledgements included, nothing stored is lost or changed and the bucket is exactly the stored uploads |
| Upload.UploadHandler.UploadOne | s3/upload/handler.go:67-105 | the bucket, the PUTs and the error of one entry, for every failure of HEAD, open and PUT |
| Upload.EntryOutcome | s3/upload/handler.go:67-105 | an entry is sent exactly when the provider answers that its object is missing and the file is there, under its label, pad and base name, with `.age` and encrypted or as it is; it fails exactly when the provider does not answer, or the missing object could not be read or was not acknowledged |
| Upload.NothingToUpload | s3/upload/handler.go:68-76 | an entry that is deactivated or selects nothing does nothing and is no failure |
| Upload.WorkingPassIsClean | s3/upload/handler.go:107-139 | a pass in which everything works reports no failure |
| Upload.CancelledUploadIsPrefix | s3/upload/handler.go:127-131 | a cancelled pass is the pass over the labels before the cancellation |
| Upload.UploadHandler.Handle | s3/upload/handler.go:111-139 | refines the pass over the labels: same bucket, PUTs, failed labels and abort |
| EncryptPipe.StepInv | s3/upload/handler.go:254-268 | every step of producer, request, early answer and early close keeps the protocol's invariant |
| EncryptPipe.UploadIsWhole | s3/upload/handler.go:227-269 | in every interleaving, early answers included, a nil result means the whole ciphertext of the whole file was received, and so does a body read to a clean end |
| EncryptPipe.NeverStuck | s3/upload/handler.go:263-267 | until both sides are done some side has a step that needs no failure and no early answer |
| EncryptPipe.StepDecreases | s3/upload/handler.go:257-268 | every step, by either side, uses up work left |
| EncryptPipe.RunsAreBounded | s3/upload/handler.go:257-268 | so every run is finite, with its length bounded by the file and the pipe |
| EncryptPipe.TruncatedFileLooksValid | s3/upload/handler.go:312-316 | after a failed read the consumer can already hold a valid age file of a truncated database, and has not seen its end |
| EncryptPipe.EncryptedContentLength | s3/upload/handler.go:271-294 | the first pass measures the length of the ciphertext, in whatever pieces it is written |
| EncryptPipe.AnnouncedLengthIsSent | s3/upload/handler.go:242-263 | a request that read its body to the end accepts it exactly when the announced length is the ciphertext's, so a measured length is never refused for an unchanged file |
| EncryptPipe.FullLengthIsWhole | s3/upload/handler.go:254-268 | in every reachable state the consumer holds no more frames than the ciphertext has, and as many are the whole of it |
| EncryptedUpload.StoresWholeExactly | s3/upload/handler.go:242-263 | no run can store anything but the whole ciphertext if and only if no length is announced or the file has not outgrown it |
| EncryptedUpload.EncryptedPutStoresWhole | s3/upload/handler.go:94-101 | whichever way the pipe runs, the entry fails exactly when its result is an error, and an object that was stored is the age file of the whole content |
| Recover.MatchOneStar | cmd/s3/download/recover/main.go:367-369 | a glob with one star matches exactly the names with its prefix and suffix that do not overlap |
| Recover.OutInjective | cmd/s3/download/recover/main.go:261-261 | two inputs of a decoding step never write the same output |
| Recover.DecodePoint | cmd/s3/download/recover/main.go:308-323 | what a decoding step leaves at each path: the decoded input that maps there, else what was there |
| Recover.NamesOfRecord | cmd/s3/download/recover/main.go:312-312 | the three names a download goes through, and which suffix each has for each kind of upload |
| EndToEnd.FirstListedIsNewest | cmd/s3/download/recover/main.go:159-167 | the first key listed under a label's prefix is one of the label's uploads of the newest second |
| EndToEnd.DownloadStage | cmd/s3/download/recover/main.go:177-195 | after the download exactly the newest object of each label whose transfer succeeded is there, under its own name, besides leftover temp files |
| EndToEnd.DecryptStage | cmd/s3/download/recover/main.go:254-272 | after decryption every such label has its plain or gzipped file, and nothing else is under a later name |
| EndToEnd.GunzipStage | cmd/s3/download/recover/main.go:304-323 | after decompression every such label has its plain database, and no pattern finds anything else |
| EndToEnd.OnlyOwnDatabase | cmd/s3/download/recover/main.go:365-377 | a label's pattern finds its own database and no other file |
| Directories.CleanMeans | cmd/s3/download/recover/main.go:125-132 | a cleaned path leads where the path leads, from every working directory |
| Directories.CleanKeeps | cmd/s3/download/recover/main.go:125-132 | cleaning keeps the elements and the start of a path, so cleaning twice is cleaning once |
| Directories.BaseExactly | internal/localcopy/latest.go:14-16 | the base of a path is what follows its last slash |
| Directories.DirAndBase | cmd/s3/download/recover/main.go:125-132 | the path of a plain file is its directory and its base, element by element |
| Directories.JoinedFile | s3/upload/handler.go:176-178 | a directory joined with a name has that directory's elements, then the name, and that base |
| Directories.SelectedLiesIn | cmd/s3/download/recover/main.go:122-132 | whatever file an entry selects for upload, the directory recovery uses for the entry is the one that file lies in |
| Directories.RestoredInPlace | cmd/s3/download/recover/main.go:122-132 | so a restored database lies beside the file that the entry uploads: from every working directory that file's path leads to the database's directory and then the file's name |
| EndToEnd.Recovery | cmd/s3/download/recover/main.go:177-382 | for every upload history and an empty machine, each reachable label with uploads gets the plain database bytes of its newest upload, in the directory that `Directories.RestoredInPlace` identifies, every other label nothing |
| RecoveryLimits.RecoveryExactly | cmd/s3/download/recover/main.go:358-377 | among well-formed labels, every recovery after every history restores every label if and only if no label of a directory extends another with a dash |
| RecoveryLimits.ExtendingLabelFound | cmd/s3/download/recover/main.go:367-377 | otherwise one upload of the longer label makes recovery report a database for the shorter one, of which nothing was uploaded |
| RecoveryLimits.ExtendingLabelMatches | cmd/s3/download/recover/main.go:367-367 | a label that extends another with a dash puts its database under the other's pattern |
| RecoveryLimits.WrongDatabaseReported | cmd/s3/download/recover/main.go:373-374 | with both labels uploaded at any current time and the longer one going on with a character below `2`, the database reported for the shorter label is the longer one's |
| RecoverSteps.ListObject | s3/download/handler.go:152-163 | a listing of one key is the first key with the prefix |
| RecoverSteps.Machine.LastDownload | s3/download/handler.go:165-194 | the loop computes the time of the newest file with the prefix |
| Recover.LastTimeIsMaximal | s3/download/handler.go:165-167 | that time belongs to a matching file and no matching file is newer; there is none exactly when nothing matches |
| Recover.ZeroIntervalWaits | cmd/s3/download/recover/main.go:185-185 | with the recovery's zero interval a label waits exactly when a matching file is from the future, and never for an empty directory |
| Recover.WaitsExactly | s3/download/handler.go:106-116 | for any interval a label waits exactly when some regular file of its directory named `s3download-<label>-...` is younger than the interval |
| Recover.ReachableExactly | s3/download/handler.go:105-116 | a label that waits makes no request; every other one is reached exactly when its fetch works |
| Recover.DownloadAdds | s3/download/handler.go:105-254 | a download changes no file that is there, leftovers aside, and adds at most the first object of the label's prefix under the label's name |
| Documented.DownloadName | s3/download/handler.go:202-216 | the name is `s3download-<label>-<pad>-<name>` |
| RecoverSteps.Machine.Download | s3/download/handler.go:105-254 | waits out the interval, lists, skips a file that is already there, else moves the object from a temp file to the label's name; a broken transfer or rename leaves at most the temp file |
| RecoverSteps.Machine.Glob | cmd/s3/download/recover/main.go:218-252 | exactly the files of the directories that match |
| RecoverSteps.Machine.Decode | cmd/s3/download/recover/main.go:257-323 | decodes every listed file next to its original and skips the ones that fail |
| RecoverSteps.Machine.FindDbPaths | cmd/s3/download/recover/main.go:362-382 | for every label the first match of its pattern with its full path, or none |
| RecoverSteps.Machine.Recover | cmd/s3/download/recover/main.go:467-498 | the running recovery restores every label as `EndToEnd.Recovery` states, and each database beside the file its entry uploads |
| Label.RoundTrip | sqlitersync/label.go:64-104 | reading a written message gives its byte and text and leaves every following byte unread |
| Label.WireBytes | sqlitersync/label.go:14-19 | on the wire a message is its first byte, three zeros, the length and the text |
| Label.DocumentedBytes | sqlitersync/label.go:21-24 | the label `app_db` is the documented eleven bytes |
| Label.ParsedExactly | sqlitersync/label.go:87-104 | what any bytes read as, byte by byte: incomplete, too long exactly from length 65 on, or the message |
| Label.ParsedIsEncoded | sqlitersync/label.go:87-104 | only a written message reads as one |
| Label.ProperPrefixNeedsMore | sqlitersync/label.go:88-102 | no beginning of a message reads as a message or an error |
| Label.NeverReadsPast | sqlitersync/label.go:90-99 | however the bytes are chunked a reader never takes one beyond the message |
| Label.Write | sqlitersync/label.go:66-85 | a text over 64 bytes writes nothing; success writes the whole message; a break leaves a proper beginning |
| Label.Read | sqlitersync/label.go:88-104 | for any arrival of the bytes the outcome is the parse of the stream, with the rest unread |
| Preamble.StepInv | sqlitersync/origin/daemon.go:199-254 | every step of either side, reload, close and reset keeps the handshake's invariant |
| Preamble.RequestIsWhole | sqlitersync/origin/daemon.go:217-224 | what the origin reads as a message is exactly the replica's request |
| Preamble.AnswerIsWhole | internal/sqlitersync/replica/client.go:54-64 | what the replica reads as an answer is the echo of its own label if the origin agreed, one of the two rejections otherwise |
| Preamble.SyncMeansAgreement | internal/sqlitersync/replica/client.go:42-73 | a replica in the sync phase faces an origin that accepted that same label and whose source, not empty, is the label's in a configuration the origin had; in both directions the unread bytes are exactly unread sync bytes |
| Preamble.LongLabelNeverSent | internal/sqlitersync/replica/client.go:49-52 | in every run with a label over 64 bytes nothing reaches the wire and nothing is agreed |
| Preamble.NeverBothWaiting | sqlitersync/origin/daemon.go:205-235 | until both sides are through, one of them can take a step of the handshake |
| Preamble.HandshakeDecreases | sqlitersync/origin/daemon.go:205-235 | every handshake step decreases a measure that reloads and sync traffic leave alone |
| Preamble.HandshakeIsBounded | sqlitersync/origin/daemon.go:205-235 | so every run has a bounded number of handshake steps |
| Preamble.Outcome | sqlitersync/label.go:26-39 | a fault-free handshake ends with both syncing, or with the origin closed and the replica refused; only the no-files text can be lost |
| Preamble.TextLostExactly | sqlitersync/label.go:37-39 | without reloads, some fault-free run ends with the replica failed and no reason if and only if the configuration serves nothing |
| Preamble.TextKept | sqlitersync/origin/daemon.go:205-228 | with reloads, none does while every configuration serves something |
| Preamble.RejectionCanBeLost | sqlitersync/origin/daemon.go:205-207 | the run that loses the text, for any configuration that serves nothing |
| PreambleSteps.Entries | sqlitersync/origin/daemon.go:69-79 | a label is kept exactly when it has a source path, with that path |
| PreambleSteps.HandleConn | sqlitersync/origin/daemon.go:199-254 | the call is a run of the protocol, whatever the replica does and is reloaded between start and lookup, wherever a deadline or a break cuts off what arrives, and wherever the write breaks; unbroken, the no-files rejection exactly when every entry is deactivated, the echo for a label with a source, the other rejection for any other label |
| PreambleSteps.RunSync | internal/sqlitersync/replica/client.go:42-69 | the call is a run of the protocol, wherever a cancellation or a break cuts off the answer or the write; the first byte of the answer decides |
| PreambleConnection.Connect | internal/sqlitersync/replica/client.go:42-69 | both calls on one connection belong to one run of the protocol: a replica that syncs faces an origin that agreed to its label, resolved in the configuration of the lookup, and what is unread is exactly sync bytes; a rejection comes with its reason; on an unbroken connection a served label syncs |
| PreambleConnection.Serve | sqlitersync/origin/daemon.go:199-254 | the origin's end of that connection |
| OriginShutdown.SignalComesLast | sqlitersync/origin/daemon.go:109-194 | in every run `ShutdownDone` closes at most once, and only after Stop, after the loop, and after every accepted connection's handler has ended with its connection closed, panics included |
| OriginShutdown.SignalIsFinal | sqlitersync/origin/daemon.go:186-191 | after it nothing is accepted or signalled again |
| OriginShutdown.ShutdownNeverStuck | sqlitersync/origin/daemon.go:143-192 | after Stop there is always a step towards the signal |
| OriginShutdown.ShutdownIsBounded | sqlitersync/origin/daemon.go:143-192 | with the listener closed every run is bounded by the handlers left |
| ReplicaSchedule.Interval | sqlitersync/replica/daemon.go:145-161 | the smallest frequency of the active entries, zero exactly when there is none |
| ReplicaSchedule.Selected | sqlitersync/replica/daemon.go:128-143 | exactly the due entries of the round |
| ReplicaSchedule.SyncedExactly | sqlitersync/replica/daemon.go:163-178 | a replica is synced in a round if and only if its frequency is positive and its file is missing or at least that old; one whose time cannot be read waits |
| ReplicaSchedule.SelectedInOrder | sqlitersync/replica/daemon.go:131-143 | in the order of the round |
| ReplicaSchedule.Sync | sqlitersync/replica/daemon.go:131-143 | the loop syncs those, in name order |
| ReplicaSchedule.DueByAge | sqlitersync/replica/daemon.go:163-178 | the saturating difference decides as the true age does, for every clock and file time |
| ReplicaSchedule.NextSync | sqlitersync/replica/daemon.go:78-178 | after a sync in any round an entry is next selected no earlier than its frequency and no later than frequency plus interval after the file's time, hence within twice its frequency |
| ReplicaSchedule.SyncsApart | sqlitersync/replica/daemon.go:128-178 | over a whole run with any failures, the times of any two successful syncs of an entry are at least its frequency apart |
| ReplicaSchedule.NextSuccess | sqlitersync/replica/daemon.go:78-178 | after a success an entry is left alone until a round that begins between frequency and frequency plus interval after the file's time, and is then due in every round up to the next success; when that round succeeds the two times are at most frequency plus two intervals apart |
| ReplicaSchedule.TwoIntervalsNeeded | sqlitersync/replica/daemon.go:94-110 | one interval would not be enough for the last bound |
| ReplicaSchedule.RoundsOfOneEntry | sqlitersync/replica/daemon.go:128-178 | the same for the rounds as they select entries by name, after every success of a run; a missing file is tried in every round, a disabled entry in none |
| ReplicaSchedule.IdleExactly | sqlitersync/replica/daemon.go:94-98 | the interval is not positive, so the daemon idles, if and only if no round could ever sync anything |
| ShellQuote.QuotedReads | ssh/ssh.go:144-156 | for every text the shell reads the quoted form as that text, all of it literal, and goes on after it |
| ShellQuote.SourceReads | rsync/ssh.go:52-57 | the source argument is one word: the directory literally, then the active glob |
| ShellQuote.CommandReads | rsync/ssh.go:72-75 | the remote shell sees the command, the option words and one last word, for every directory name |
| ShellQuote.DocumentedCommandReads | rsync/ssh.go:36-51 | with the documented flags and `latest-*.db`, without further assumption |
| ShellQuote.OnlyGlobIsActive | rsync/ssh.go:36-46 | in the last word that the remote shell reads, no character of the directory is active and every active pattern character is the glob's |
| OnlineCopy.ModuloLogger.constructor | onlineapi/onlineapi.go:164-185 | the logger starts with one interval to its first target and no line written |
| OnlineCopy.ModuloLogger.Log | onlineapi/onlineapi.go:188-194 | one line when the target is reached, and the lines written never outrun the pages |
| OnlineCopy.AtMostNineteen | onlineapi/onlineapi.go:173-177 | ten log points by integer division allow at most nineteen lines, for any page count |
| OnlineCopy.LogRun | onlineapi/onlineapi.go:65-106 | against any driver, restarts included: at most nineteen progress lines, page by page nine to eighteen of them or one a page below ten, and the final line exactly when the copy completed |
| OnlineCopy.CompletesExactly | onlineapi/onlineapi.go:78-93 | the loop completes exactly when a last page comes before any failing step and any cancellation |
| OnlineCopy.EndsAtTheFirst | onlineapi/onlineapi.go:78-93 | on an undisturbed source the loop ends with whichever comes first: a cancellation, a failing step, or the step that writes the last page |
| OnlineCopy.CopyEndingIsEnding | onlineapi/onlineapi.go:78-106 | which is how the loop ends against that driver |
| OnlineCopy.Copy | onlineapi/onlineapi.go:50-107 | with a positive step and an undisturbed source the loop ends that way, and success means every page was written exactly once, in order, and the final line logged |

## Left out

- SQLite, `VACUUM INTO`, the online backup driver and the sync protocol after the preamble: foreign code, entering as contracts.
- age, gzip, the S3 HTTP client, SSH and gokrazy rsync: foreign code; age output is a header, one frame per plaintext byte and a final chunk, so lengths are in frames.
- Connection pools, log texts, error wrapping and summaries: nothing above depends on them.
- Configuration loading and validation, main functions, landlock and systemd units: plumbing.
- `rsync/verify.go`, `rsync/receiver.go`, `rsync/local.go`, the rsync daemon and the quote doubling of the vacuum job: thin wrappers or an easier twin of what is modelled.
- `findAppDB`, `isAppDB`, `moveAppDB`: they depend on running an external program.
- RecoverSteps.Machine.Download: the directory listing and the clock it waits by are inputs and not derived from the machine's files, which carry no times.
- Dropping upload entries without a path before recovery: a filter like `PreambleSteps.Entries`.
- Path aliasing: two spellings of one directory, symbolic links, and glob characters in directory names. Glob classes and escapes are not modelled; label patterns contain none.
- Reordering of file steps by a power failure: the code calls no fsync.
- Concurrent online and vacuum jobs on one directory: a pass runs alone.
- A source whose copy creates no file although it succeeds (an empty database in the online strategy).
- Years outside 0..9999, which the layout cannot hold.
- The replica's `Run` loop: its rounds are the instants of `ReplicaSchedule.Rounds`, with every round no longer than one interval, so no tick is dropped.
- PreambleSteps.HandleConn: deadlines have no clock; a passed deadline is a read or write that breaks, which may happen at any point. The origin's reads are taken at its lookup, by when all it reads has arrived.
- Flow control on the wire: the preamble's messages are at most 69 bytes and sends never block.
- Narrowing of the step size to 32 bits in the online copy.
- OrderOfPass.OrderIndependence: a pass cancelled part way is excluded, since the entries it leaves out depend on the order; `Runs.CancelledPassIsPrefix` says what such a pass does.
- Schedule.LinkRises: the time of the link is tied to a snapshot that still has its name, so erasing snapshots is excluded from that half; the other half allows it.
- Scan.PickByNameIsNewest: the in-place sort of the SFTP client is modelled on values; only its first element is used.
- Engine.Volume.ReadDir: lists regular files only; sub-directories are handled in `Scan.ScanBackupDir`.
- Upload.SelectionExactly: a fixed path that names a directory counts as missing; the code finds it and then fails to upload it.
- OnlineCopy.LogRun: counts the lines and not their text.
- EncryptPipe.AnnouncedLengthIsSent: says nothing of an answer that comes before the body was read to its end, since the length is only compared there.
- EndToEnd.Recovery: two uploads of one label with the same newest second and different names are not told apart, as the key orders seconds only.
