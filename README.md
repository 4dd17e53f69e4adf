# Drive transfer service: a Dafny model

This project models the core of a NestJS service that copies videos from a shared Google Drive folder to another Drive. The service works in five stages:

- A folder is submitted and queued for a scan.
- The folder worker reads the folder's page and stores one PENDING file per video.
- The file worker captures the video's two media streams from the player's own requests. It downloads them with curl, merges them with ffmpeg, uploads the result with rclone and cleans up.
- Retry use cases put FAILED files back in the queue.
- Around the pipeline sit the drive-account and user modules, credential checks, and shared infrastructure. That infrastructure is the error hierarchy, the exception filter, the response envelope, log redaction, trace contexts and the module generator's name handling.

The model is written in the source's own form:

- Entities whose methods assign their fields are classes: transfer file, transfer folder, drive account and user, each with a dirty-checking `Tracker`.
- The store is a `Table` class holding the records in insertion order. Ids are generated from a counter and are never '0'.
- The job queues are append-only sequences of named jobs with payloads.
- Workers and use cases are methods whose `ensures` give the new store, the new queues and the result.
- Pure code is functions, with lemmas for what it promises: schemas, mappings, filters, string and path handling, error factories, response shaping, redaction and trace headers.

Everything the code reads from outside becomes a parameter:

- the clock (`now`, in milliseconds);
- what the browser shows (page entries, title, requests per tick, cookies, user agent);
- the outcomes of curl, ffmpeg and rclone;
- the local file system, as the set of existing paths, with an operating-system refusal as an input;
- the generated trace id;
- the bcrypt comparison, as a predicate.

Some things the service does not do, and the model does not add:

- The folder scan creates no sub-folders and queues no child scans.
- The file entity has no retry counter.
- The two tracks are downloaded one after the other, not concurrently.
- The file worker's local clean-up runs only once an upload has returned a path, not after every failure.
- A captured stream URL is downloaded as it is. curl follows HTTP redirects (`-L`), but no page is reloaded to resolve a chain of redirect pages.

## Model

| member | source | states |
|---|---|---|
| TransferFile.ObjectIsStatePlusId | src/transfer-file/domain/entities/transfer-file.entity.ts:38-61 | `toObject` is `getCurrentState` plus the id, and the id is never part of the tracked state |
| TransferFile.NewFile | src/transfer-file/domain/entities/transfer-file.entity.ts:86-101 | a new file has id '0', status PENDING, no error log, the given folder, url and name, and both timestamps at the clock reading |
| TransferFile.RunSnoc | src/transfer-file/domain/entities/transfer-file.entity.ts:63-84 | running one more mutator is one step from where the run ended |
| TransferFile.RunKeepsErrorLogConsistent | src/transfer-file/domain/entities/transfer-file.entity.ts:63-80 | after any sequence of mutators an error log is only present on a FAILED or PROCESSING file |
| TransferFile.RunKeepsIdentity | src/transfer-file/domain/entities/transfer-file.entity.ts:16-23 | no sequence of mutators changes id, folderId, originalUrl, createdAt or updatedAt |
| TransferFile.LastMutatorDecides | src/transfer-file/domain/entities/transfer-file.entity.ts:67-80 | the last status mutator decides: after `markAsFailed(e)` the log is `e`, after `markAsCompleted`/`markAsPending` it is null |
| TransferFile.StepChangesOnlyTouched | src/transfer-file/domain/entities/transfer-file.entity.ts:63-84 | a mutator's changes lie within the properties it assigns: status; status and errorLog; or name |
| TransferFile.FileEntity.constructor | src/transfer-file/domain/entities/transfer-file.entity.ts:25-36 | copies every property and takes the initial snapshot of the state |
| TransferFile.FileEntity.MarkAsProcessing | src/transfer-file/domain/entities/transfer-file.entity.ts:63-65 | status becomes PROCESSING; the error log and every other property are unchanged |
| TransferFile.FileEntity.MarkAsCompleted | src/transfer-file/domain/entities/transfer-file.entity.ts:67-70 | status becomes COMPLETED and the error log null; nothing else changes |
| TransferFile.FileEntity.MarkAsFailed | src/transfer-file/domain/entities/transfer-file.entity.ts:72-75 | status becomes FAILED and the error log the given text; nothing else changes |
| TransferFile.FileEntity.MarkAsPending | src/transfer-file/domain/entities/transfer-file.entity.ts:77-80 | status becomes PENDING and the error log null; nothing else changes |
| TransferFile.FileEntity.UpdateName | src/transfer-file/domain/entities/transfer-file.entity.ts:82-84 | only the name changes |
| TransferFile.CreateNew | src/transfer-file/domain/entities/transfer-file.entity.ts:86-101 | a fresh entity holding `NewFile`, not dirty |
| TransferFile.FromData | src/transfer-file/domain/entities/transfer-file.entity.ts:103-114 | a fresh entity holding exactly the given properties, snapshot taken, not dirty |
| TransferFolder.ParseStatus | src/transfer-file/domain/entities/transfer-folder.entity.ts:3-9 | a stored status string reads as the enum member whose value it is |
| TransferFolder.ParseStatusName | src/transfer-file/domain/entities/transfer-folder.entity.ts:3-9 | every status reads back from its stored value |
| TransferFolder.ObjectIsStatePlusId | src/transfer-file/domain/entities/transfer-folder.entity.ts:45-68 | `toObject` is `getCurrentState` plus the id, and the id is never part of the tracked state |
| TransferFolder.NewFolder | src/transfer-file/domain/entities/transfer-folder.entity.ts:86-97 | id '0', PENDING, the given url and parent; name 'Transfer' only when absent (an empty name is kept); path '' when absent |
| TransferFolder.RunSnoc | src/transfer-file/domain/entities/transfer-folder.entity.ts:70-84 | running one more mutator is one step from where the run ended |
| TransferFolder.RunKeepsIdentity | src/transfer-file/domain/entities/transfer-folder.entity.ts:23-30 | no sequence of mutators changes id, url, path, parentId, createdAt or updatedAt |
| TransferFolder.NeverSetsProcessing | src/transfer-file/domain/entities/transfer-folder.entity.ts:3-9 | no folder mutator sets PROCESSING: a folder is PROCESSING after a run only if it was before and every mutator was a rename |
| TransferFolder.StepChangesOnlyTouched | src/transfer-file/domain/entities/transfer-folder.entity.ts:70-84 | a mutator's changes lie within the property it assigns: status or name |
| TransferFolder.FolderEntity.constructor | src/transfer-file/domain/entities/transfer-folder.entity.ts:32-43 | copies every property and takes the initial snapshot of the state |
| TransferFolder.FolderEntity.MarkAsScanning | src/transfer-file/domain/entities/transfer-folder.entity.ts:70-72 | status becomes SCANNING from any status; nothing else changes |
| TransferFolder.FolderEntity.MarkAsCompleted | src/transfer-file/domain/entities/transfer-folder.entity.ts:74-76 | status becomes COMPLETED from any status; nothing else changes |
| TransferFolder.FolderEntity.MarkAsFailed | src/transfer-file/domain/entities/transfer-folder.entity.ts:78-80 | status becomes FAILED from any status; nothing else changes |
| TransferFolder.FolderEntity.UpdateName | src/transfer-file/domain/entities/transfer-folder.entity.ts:82-84 | only the name changes; url, path and status are untouched |
| TransferFolder.CreateNew | src/transfer-file/domain/entities/transfer-folder.entity.ts:86-97 | a fresh entity holding `NewFolder`, not dirty |
| TransferFolder.FromData | src/transfer-file/domain/entities/transfer-folder.entity.ts:99-110 | a fresh entity holding exactly the given properties, snapshot taken, not dirty |
| EntityBase.NoChangesAgainstSelf | src/core/base/entity.base.ts:74-95 | a state compared with itself has no changes, so an unmutated entity is clean |
| EntityBase.ChangesEmptyIff | src/core/base/entity.base.ts:74-95 | the changes are empty exactly when every defined property still holds its original value (both directions) |
| EntityBase.ApplyChangesCatchesUp | src/core/base/entity.base.ts:74-112 | writing the changes over the original row reproduces every defined current property and leaves the rest (including properties now undefined) alone |
| EntityBase.ColumnAfterChanges | src/core/base/entity.base.ts:85-89 | one column after an update clause: the current value where it changed and is defined, the stored value elsewhere |
| EntityBase.ChangesSettleAfterApply | src/core/base/entity.base.ts:74-112 | once the changes are written back, nothing is left to write |
| EntityBase.Tracker.constructor | src/core/base/entity.base.ts:14-15 | no snapshot yet (`_isInitialized` false) |
| EntityBase.Tracker.SetInitialState | src/core/base/entity.base.ts:41-46 | the first call records the state; later calls leave the snapshot as it was |
| EntityBase.Tracker.IsDirty | src/core/base/entity.base.ts:52-67 | dirty iff some defined property differs from the baseline; an entity not yet initialised compares against itself and is clean |
| EntityBase.Tracker.UpdateClause | src/core/base/entity.base.ts:103-112 | null iff not dirty; otherwise exactly the properties whose defined current value differs from the baseline, with their current values, which bring the baseline up to every defined current property |
| RepositoryBase.IdOfInjective | src/core/base/repository.base.ts:144-150 | ids handed out by the store are distinct and never '0', so a created record is never routed back to `create` |
| RepositoryBase.StrColumnAfter | src/core/base/repository.base.ts:230-240 | a text column after the update clause: the new value where it changed, the stored value elsewhere |
| RepositoryBase.NumColumnAfter | src/core/base/repository.base.ts:230-240 | the same for a date or big-integer column |
| RepositoryBase.NullableColumnAfter | src/core/base/repository.base.ts:230-240 | the same for a nullable text column |
| RepositoryBase.DateColumnAfter | src/core/base/repository.base.ts:230-240 | the same for a nullable date column |
| RepositoryBase.IndexOf | src/core/base/repository.base.ts:136-138 | the position of the record with the id, or none when no record has it |
| RepositoryBase.IndexOfUnique | src/core/base/repository.base.ts:136-138 | with unique ids the record at a position is the one found by its id |
| RepositoryBase.Without | src/core/base/repository.base.ts:159-168 | exactly the records whose id is not listed, in table order |
| RepositoryBase.Within | src/core/base/repository.base.ts:159-168 | exactly the records whose id is listed; together with `Without` they account for every record |
| RepositoryBase.WithoutKeepsUnique | src/core/base/repository.base.ts:159-168 | deleting keeps ids unique |
| RepositoryBase.DistinctIdsBound | src/core/base/repository.base.ts:159-168 | records with distinct ids drawn from a set of ids are at most that many |
| RepositoryBase.Filter | src/drive-account/infrastructure/prisma-drive-account.repository.ts:86-110 | `where`: exactly the records the clause matches, in table order |
| RepositoryBase.FilterKeepsUnique | src/drive-account/infrastructure/prisma-drive-account.repository.ts:86-110 | filtering keeps ids unique |
| RepositoryBase.BeforeTotal | src/drive-account/infrastructure/prisma-drive-account.repository.ts:108 | `orderBy` compares any two records |
| RepositoryBase.BeforeTransitive | src/drive-account/infrastructure/prisma-drive-account.repository.ts:108 | `orderBy` is transitive |
| RepositoryBase.SortBySortsAndKeeps | src/drive-account/infrastructure/prisma-drive-account.repository.ts:108 | the ordered result is sorted in the requested direction and is a permutation of its input |
| RepositoryBase.Page | src/drive-account/infrastructure/prisma-drive-account.repository.ts:109-110 | `skip`/`take`: refused iff skip is negative; at most `take` records (a negative take counts back, at most `-take`); the records from `skip` on when no take is given; exactly `rs[skip..skip+take]` when they exist |
| RepositoryBase.PageIsSlice | src/drive-account/infrastructure/prisma-drive-account.repository.ts:109-110 | a page is a run of consecutive records of what it pages |
| RepositoryBase.PageOfListing | src/drive-account/infrastructure/prisma-drive-account.repository.ts:105-110 | a page of a filtered, ordered listing holds only stored records that match, in the requested order |
| RepositoryBase.SliceOfSorted | src/drive-account/infrastructure/prisma-drive-account.repository.ts:105-110 | a run of consecutive records of an ordered sequence is ordered and drawn from it |
| RepositoryBase.CreateKeepsEmailsUnique | src/drive-account/application/use-cases/create-drive-account.use-case.ts:17-29 | creating a record whose email no stored record has keeps emails unique |
| RepositoryBase.FilterFindsOnlyLast | src/user/application/use-cases/create-user.use-case.ts:17-22 | filtering records none of which matches, plus one that does, finds just that one |
| RepositoryBase.Table.constructor | src/core/base/repository.base.ts:111-117 | an empty, valid store |
| RepositoryBase.Table.FindUnique | src/core/base/repository.base.ts:131-142 | the stored record with the id, or none when no record has it |
| RepositoryBase.Table.Create | src/core/base/repository.base.ts:207-219 | appends one record holding the defined columns of the input, under a fresh id no record had |
| RepositoryBase.Table.Update | src/core/base/repository.base.ts:235-238 | fails and writes nothing when no record has the id; otherwise only that record changes, its columns overwritten by the clause |
| RepositoryBase.Table.Delete | src/core/base/repository.base.ts:152-157 | fails when no record has the id; otherwise removes exactly that record |
| RepositoryBase.Table.DeleteMany | src/core/base/repository.base.ts:159-168 | removes every record whose id is listed and returns how many went, at most the number of ids |
| RepositoryBase.Table.Count | src/drive-account/infrastructure/prisma-drive-account.repository.ts:112-114 | `count({ where })`: the number of matching records, at most the table size |
| RepositoryBase.RouteOf | src/core/base/repository.base.ts:144-150 | `save` takes the create path exactly when the id is '0' |
| RepositoryBase.UpdateEntity | src/core/base/repository.base.ts:221-241 | a clean entity writes nothing; a dirty one writes its change set to the record with its id and returns that record; a missing record fails with nothing written |
| RepositoryBase.DefinedChanges | src/core/base/entity.base.ts:85-89 | a change set never holds `undefined`, so the store writes it whole |
| RepositoryBase.CreateAll | src/core/base/repository.base.ts:170-201 | one `create` per input, in input order: the new records are appended and returned in that order, ids unique |
| TransferRepositories.FolderFromRecord | src/transfer-file/infrastructure/prisma-transfer-folder.repository.ts:22-31 | a loaded folder keeps the record's id, url, name and status, and never has a path or parentId, whatever is stored |
| TransferRepositories.FolderCreateInput | src/transfer-file/infrastructure/prisma-transfer-folder.repository.ts:33-38 | the create input is the folder's state without its id |
| TransferRepositories.FolderLoadsBack | src/transfer-file/infrastructure/prisma-transfer-folder.repository.ts:22-38 | a record holding a folder's state loads back as that folder, less path and parentId |
| TransferRepositories.FolderQueryAll | src/transfer-file/infrastructure/prisma-transfer-folder.repository.ts:40-46 | `findAll` returns every folder record, a permutation of the table, newest first |
| TransferRepositories.FilterAnyKeepsAll | src/transfer-file/infrastructure/prisma-transfer-folder.repository.ts:40-46 | a query without a where clause selects every record, in table order |
| TransferRepositories.FolderRepository.constructor | src/transfer-file/infrastructure/prisma-transfer-folder.repository.ts:18-20 | the repository works on the given table |
| TransferRepositories.FolderRepository.FindById | src/core/base/repository.base.ts:131-142 | null exactly when no record has the id, otherwise a clean folder loaded from that record |
| TransferRepositories.FolderRepository.Create | src/core/base/repository.base.ts:207-219 | one record is appended holding the folder's state under a fresh id never used before and never '0'; the returned entity is clean and equals the input with the new id and no path or parentId |
| TransferRepositories.FolderRepository.Update | src/core/base/repository.base.ts:221-241 | a clean folder is returned unchanged with nothing written; a dirty one has only its changed columns written and is reloaded clean from the stored record; a missing record fails and changes nothing |
| TransferRepositories.FolderWritten | src/core/base/repository.base.ts:221-241 | a folder reloaded after an update keeps its id and has no path or parentId |
| TransferRepositories.FolderUpdateLoads | src/core/base/repository.base.ts:221-241 | writing the changes between two folder states and loading the record gives, column by column, the new value where it changed and the stored value elsewhere |
| TransferRepositories.FolderReloadsAfterUpdate | src/core/base/repository.base.ts:221-241 | update round trip: writing a loaded folder's changes and loading the record again gives the folder as it now is, less path and parentId |
| TransferRepositories.StatusColumnAfter | src/core/base/repository.base.ts:221-241 | the status column after an update is the new status where it changed and the stored one elsewhere |
| TransferRepositories.FileFromRecord | src/transfer-file/infrastructure/prisma-transfer-file.repository.ts:22-35 | a loaded file keeps the record's id and folderId; its error log is present exactly when the column holds text, and is that text |
| TransferRepositories.FileCreateInput | src/transfer-file/infrastructure/prisma-transfer-file.repository.ts:37-52 | the create input is the file's state without its id, with every column defined |
| TransferRepositories.FileWritten | src/core/base/repository.base.ts:221-241 | a file reloaded after an update keeps its id |
| TransferRepositories.FileUpdateLoads | src/core/base/repository.base.ts:221-241 | writing the changes between two file states and loading the record gives, column by column, the new value where it changed and the stored value elsewhere |
| TransferRepositories.FileTextColumnsLoad | src/core/base/repository.base.ts:221-241 | the same, for the file's text columns |
| TransferRepositories.FileStateColumnsLoad | src/core/base/repository.base.ts:221-241 | the same, for the file's status, errorLog, createdAt and updatedAt columns |
| TransferRepositories.FileReloadsAfterUpdate | src/core/base/repository.base.ts:221-241 | update round trip: writing a loaded file's changes and loading the record again gives the file as it now is |
| TransferRepositories.FileCreateLoadsBack | src/transfer-file/infrastructure/prisma-transfer-file.repository.ts:22-52 | create round trip: a file stored from its create input loads back as itself with the new id |
| TransferRepositories.FileQuery | src/transfer-file/infrastructure/prisma-transfer-file.repository.ts:75-94 | a file query returns exactly the matching records, a permutation of them, sorted by `createdAt` in the asked direction |
| TransferRepositories.FilesOf | src/transfer-file/infrastructure/prisma-transfer-file.repository.ts:75-94 | every record of a query result is loaded, in order |
| TransferRepositories.FindPendingFiles | src/transfer-file/infrastructure/prisma-transfer-file.repository.ts:87-94 | every file returned is PENDING |
| TransferRepositories.FindFailedFiles | src/transfer-file/application/use-cases/retry-failed-files.use-case.ts:18-19 | every file returned is FAILED |
| TransferRepositories.FileRepository.constructor | src/transfer-file/infrastructure/prisma-transfer-file.repository.ts:18-20 | the repository works on the given table |
| TransferRepositories.FileRepository.FindById | src/core/base/repository.base.ts:131-142 | null exactly when no record has the id, otherwise a clean file loaded from that record |
| TransferRepositories.FileRepository.Update | src/core/base/repository.base.ts:221-241 | a clean file is returned unchanged with nothing written; a dirty one has only its changed columns written and is reloaded clean; a missing record fails and changes nothing |
| TransferRepositories.FileRepository.CreateMany | src/transfer-file/infrastructure/prisma-transfer-file.repository.ts:54-73 | one record per file is appended after the existing ones, each loading back as its file with a new id; the result is at most one per file, read back from the first file's folder, newest first |
| TransferRepositories.Newest | src/transfer-file/infrastructure/prisma-transfer-file.repository.ts:61-72 | at most as many records as files are read back, all of the first file's folder |
| FolderScan.CaptureEnd | src/transfer-file/infrastructure/workers/transfer-folder.processor.ts:136 | the lazy `(.+?)` stops at the first length from which the separator `\s*-\s*Google Drive` matches, never crossing a line terminator; none when no such length exists |
| FolderScan.TitleCapture | src/transfer-file/infrastructure/workers/transfer-folder.processor.ts:136-137 | group 1 of the title pattern is the shortest non-empty one-line prefix followed by the separator, and is absent exactly when no prefix is |
| FolderScan.SeparatorNeedsSpaces | src/transfer-file/infrastructure/workers/transfer-folder.processor.ts:136 | text the separator's `\s*` spans before its hyphen is all white space |
| FolderScan.DrivePageTitle | src/transfer-file/infrastructure/workers/transfer-folder.processor.ts:136-138 | a Drive page title `<name> - Google Drive…` with a one-line, hyphen-free name yields that name, trimmed |
| FolderScan.FirstAccepted | src/transfer-file/infrastructure/workers/transfer-folder.processor.ts:147-155 | the first selector whose element has text without 'Google Drive'; none when no selector's has |
| FolderScan.MetaName | src/transfer-file/infrastructure/workers/transfer-folder.processor.ts:140-157 | the in-page fallback returns the trimmed text of the first accepted element, and null exactly when none is accepted |
| FolderScan.TrimKeepsAbsence | src/transfer-file/infrastructure/workers/transfer-folder.processor.ts:151-152 | trimming text that lacks 'Google Drive' cannot make it appear |
| FolderScan.FallbackName | src/transfer-file/infrastructure/workers/transfer-folder.processor.ts:134-165 | the fallback's non-empty name, else 'Transfer' (also when evaluation throws); always non-empty, trimmed and free of 'Google Drive' |
| FolderScan.FolderName | src/transfer-file/infrastructure/workers/transfer-folder.processor.ts:133-165 | the trimmed title capture when the title matches, which may be empty; otherwise the fallback's name |
| FolderScan.FirstEnding | src/transfer-file/infrastructure/workers/transfer-folder.processor.ts:186 | a word of the list the name ends with, ignoring ASCII case, or none when it ends with none |
| FolderScan.SuffixWord | src/transfer-file/infrastructure/workers/transfer-folder.processor.ts:186 | the type word (Video, MKV, AVI, MOV, WEBM, MP4) the name ends with, if any |
| FolderScan.CleanName | src/transfer-file/infrastructure/workers/transfer-folder.processor.ts:186 | the cleaned name is a prefix of the name; it differs exactly when a type word follows white space at the end, and then the whole white-space run and the word are gone |
| FolderScan.Videos | src/transfer-file/infrastructure/workers/transfer-folder.processor.ts:168-196 | at most one link per `[data-id]` element |
| FolderScan.VideosSelect | src/transfer-file/infrastructure/workers/transfer-folder.processor.ts:172-193 | the links are exactly those of the elements whose name mentions a video extension and whose id is neither empty nor '_gd' |
| FolderScan.CollectVideos | src/transfer-file/infrastructure/workers/transfer-folder.processor.ts:168-196 | the `forEach` pushes exactly the links `Videos` selects, in document order |
| FolderScan.Unnamed | src/transfer-file/infrastructure/workers/transfer-folder.processor.ts:201 | the invalid links are exactly those whose name is empty or white space |
| FolderScan.ExtensionDot | src/transfer-file/infrastructure/workers/transfer-folder.processor.ts:176-182 | a name mentioning a video extension holds a dot |
| FolderScan.CleanKeepsDot | src/transfer-file/infrastructure/workers/transfer-folder.processor.ts:186 | stripping the type word never removes a dot |
| FolderScan.VideoNameNotBlank | src/transfer-file/infrastructure/workers/transfer-folder.processor.ts:176-190 | the cleaned name of a collected video is never blank |
| FolderScan.VideosAllNamed | src/transfer-file/infrastructure/workers/transfer-folder.processor.ts:200-204 | no collected link is unnamed, so the name check never throws |
| FolderScan.ScanOutcome | src/transfer-file/infrastructure/workers/transfer-folder.processor.ts:85-207 | a scan fails only on an expired session or a page that does not load; otherwise it returns the page's videos and folder name |
| FolderScan.ScanFolderForVideos | src/transfer-file/infrastructure/workers/transfer-folder.processor.ts:85-207 | the method returns what `Scan` specifies: the session error, the page error, the unnamed-files error or the videos with the folder name |
| FolderProcessor.SuccessOps | src/transfer-file/infrastructure/workers/transfer-folder.processor.ts:41-67 | a successful scan marks SCANNING first and COMPLETED last, and renames exactly when the scan found a non-empty name |
| FolderProcessor.RefreshedTracksRun | src/transfer-file/infrastructure/workers/transfer-folder.processor.ts:41-67 | when each write is measured against the previous write, the record loads as the run of all the mutators |
| FolderProcessor.RefreshedScanCompletes | src/transfer-file/infrastructure/workers/transfer-folder.processor.ts:41-67 | then a successful scan always leaves the folder COMPLETED, with the scanned name when there is one |
| FolderProcessor.StoredAfterSnoc | src/transfer-file/infrastructure/workers/transfer-folder.processor.ts:41-67 | one more write on the same entity is measured against the state loaded at the start |
| FolderProcessor.StaleScanStatus | src/transfer-file/infrastructure/workers/transfer-folder.processor.ts:41-67 | as written, a folder loaded COMPLETED ends SCANNING after a successful rescan; any other folder ends COMPLETED |
| FolderProcessor.RescannedFolderStaysScanning | src/transfer-file/infrastructure/workers/transfer-folder.processor.ts:41-67 | the concrete case: a COMPLETED folder rescanned stays SCANNING as written, and ends COMPLETED with the refreshed entity |
| FolderProcessor.NewFiles | src/transfer-file/infrastructure/workers/transfer-folder.processor.ts:54-60 | one new file per video, carrying the folder id, the video's URL and name |
| FolderProcessor.WriteFolder | src/transfer-file/infrastructure/workers/transfer-folder.processor.ts:37-75 | `folderRepo.update` on an existing record: the record then loads as the entity's changes against its snapshot say, and nothing is written for a clean entity |
| FolderProcessor.InsertFiles | src/transfer-file/infrastructure/workers/transfer-folder.processor.ts:54-63 | the new files are appended after the existing records, each loading as the file it was made from |
| FolderProcessor.MarkFailed | src/transfer-file/infrastructure/workers/transfer-folder.processor.ts:70-77 | the error handler leaves a missing folder untouched and an existing one loaded with status FAILED and nothing else changed |
| FolderProcessor.ProcessFolder | src/transfer-file/infrastructure/workers/transfer-folder.processor.ts:31-79 | a missing folder fails the job with nothing written; a failed scan leaves the folder FAILED, inserts nothing and fails with the scan's message; a successful one inserts one file per video and leaves the folder as the stale-snapshot writes say |
| FolderProcessor.ProcessLoaded | src/transfer-file/infrastructure/workers/transfer-folder.processor.ts:41-79 | the same, once the folder is loaded |
| FolderProcessor.CompleteScan | src/transfer-file/infrastructure/workers/transfer-folder.processor.ts:47-67 | after a successful scan: the files are inserted and the folder loads as the stale-snapshot writes of all the mutators say |
| FolderProcessor.SuccessSteps | src/transfer-file/infrastructure/workers/transfer-folder.processor.ts:41-67 | the run and the stored state after each step of a successful scan |
| FolderProcessor.RefreshingWrite | src/core/base/repository.base.ts:221-241 | an update whose returned entity is kept: the record then loads as the entity, and the entity's snapshot is its state |
| FolderProcessor.ProcessFolderRefreshed | src/transfer-file/infrastructure/workers/transfer-folder.processor.ts:31-79 | corrected worker: failures as in `process`; a successful scan inserts the files and leaves the folder as the run of all the mutators, COMPLETED |
| FolderProcessor.CompleteScanRefreshed | src/transfer-file/infrastructure/workers/transfer-folder.processor.ts:47-67 | its tail after the scan: files inserted, folder COMPLETED with the scanned name |
| FolderProcessor.CompleteRefreshed | src/transfer-file/infrastructure/workers/transfer-folder.processor.ts:66-67 | `markAsCompleted` and the write on the refreshed entity: the record loads as the entity marked COMPLETED |
| FolderProcessor.RenameRefreshed | src/transfer-file/infrastructure/workers/transfer-folder.processor.ts:47-51 | the rename and its write on the refreshed entity: the record loads as the renamed entity, which is returned clean |
| FileProcessor.UploadToDrive | src/transfer-file/infrastructure/workers/transfer-file.processor.ts:107-141 | the file is renamed to the file's name next to where it was, unless it already has that name or the rename is refused (which is only logged); rclone copies the renamed or original path to the named folder on the `tyziiu` remote; a failed upload fails with rclone's error, a successful one returns the uploaded path |
| FileProcessor.UploadRenames | src/transfer-file/infrastructure/workers/transfer-file.processor.ts:109-124 | a file of a plain directory is uploaded as `<dir>/<name>` and is no longer found under its old name; when the rename is refused it is uploaded where it is and the disk is unchanged |
| FileProcessor.CleanupTargets | src/transfer-file/infrastructure/workers/transfer-file.processor.ts:150-158 | the clean-up removes three paths, the first being the path it is given |
| FileProcessor.CleanupLocalFiles | src/transfer-file/infrastructure/workers/transfer-file.processor.ts:147-170 | every target that exists and may be removed is removed; nothing else on the disk changes |
| FileProcessor.CleanupPaths | src/transfer-file/infrastructure/workers/transfer-file.processor.ts:160-169 | the loop over the targets removes exactly the removable ones, a refusal being logged and skipped |
| FileProcessor.TimestampOfOutput | src/transfer-file/infrastructure/workers/transfer-file.processor.ts:150-152 | the timestamp read off `output_<digits>.mp4` is its digits |
| FileProcessor.CleanupOfDownload | src/transfer-file/infrastructure/workers/transfer-file.processor.ts:150-158 | for the crawler's merged file the clean-up targets are that file and the crawler's own video and audio tracks |
| FileProcessor.TimestampOfTalk | src/transfer-file/infrastructure/workers/transfer-file.processor.ts:150-152 | the name `talk.mp4` gives the timestamp `talk` and the file's directory |
| FileProcessor.DigitTracksDiffer | src/transfer-file/infrastructure/workers/transfer-file.processor.ts:154-158 | tracks named with a digit timestamp are none of the paths the clean-up of `talk.mp4` looks for |
| FileProcessor.TalkTargets | src/transfer-file/infrastructure/workers/transfer-file.processor.ts:150-158 | the clean-up of `<dir>/talk.mp4` looks for `video_talk.mp4` and `audio_talk.mp4` |
| FileProcessor.TargetsFrom | src/transfer-file/infrastructure/workers/transfer-file.processor.ts:150-158 | the targets once the directory and the timestamp are known |
| FileProcessor.RenamedCleanupMissesTracks | src/transfer-file/infrastructure/workers/transfer-file.processor.ts:66-158 | as written, after the rename to `talk.mp4` the clean-up never looks for the download's video or audio track |
| FileProcessor.CorrectedCleanupTargets | src/transfer-file/infrastructure/workers/transfer-file.processor.ts:150-158 | corrected clean-up: the uploaded file first, then the tracks named after the crawler's output path |
| FileProcessor.CorrectedCleanupFindsTracks | src/transfer-file/infrastructure/workers/transfer-file.processor.ts:150-158 | the corrected clean-up targets are the uploaded file and the download's own video and audio tracks, whatever the upload name |
| FileProcessor.WriteFile | src/transfer-file/infrastructure/workers/transfer-file.processor.ts:59-81 | `fileRepo.update`: the record then loads as the entity's changes against its snapshot say; a clean entity writes nothing |
| FileProcessor.ProcessFile | src/transfer-file/infrastructure/workers/transfer-file.processor.ts:38-98 | a missing file or folder fails the job with nothing changed; otherwise the job ends with the crawler's error, rclone's error or success, removes the job exactly when it failed, leaves the record as the stale-snapshot writes say and the disk as download, rename and (after a successful upload only) clean-up leave it |
| FileProcessor.TransferLoaded | src/transfer-file/infrastructure/workers/transfer-file.processor.ts:53-97 | the `try`/`catch`/`finally` for a loaded file, with the same outcome, record and disk |
| FileProcessor.WriteStaleFinal | src/transfer-file/infrastructure/workers/transfer-file.processor.ts:69-81 | the final mutator written against the load-time snapshot leaves the record as `StaleOutcome` says |
| FileProcessor.DownloadAndUpload | src/transfer-file/infrastructure/workers/transfer-file.processor.ts:62-66 | the download's outcome is the crawler's; the upload fails exactly when the job does, with its message; the disk is the download's, then the rename's |
| FileProcessor.StaleFileStatus | src/transfer-file/infrastructure/workers/transfer-file.processor.ts:58-81 | as written, a job whose final status equals the loaded status leaves the file PROCESSING; the error log is always the final mutator's |
| FileProcessor.DuplicateJobStaysProcessing | src/transfer-file/infrastructure/workers/transfer-file.processor.ts:58-81 | the concrete cases: a succeeding job on a COMPLETED file, and a failing job on a FAILED file, leave it PROCESSING |
| FileProcessor.RefreshingWriteFile | src/core/base/repository.base.ts:221-241 | an update whose returned entity is kept: the record then loads as the entity, whose snapshot is its state |
| FileProcessor.ProcessFileCorrected | src/transfer-file/infrastructure/workers/transfer-file.processor.ts:38-98 | corrected worker: failures as written; the file ends COMPLETED when the job succeeds and FAILED when it fails, whatever status it was loaded with; clean-up removes the download's own tracks |
| FileProcessor.RunOfJob | src/transfer-file/infrastructure/workers/transfer-file.processor.ts:58-81 | the two mutators of a job end in COMPLETED on success and FAILED on failure |
| FileProcessor.TransferLoadedCorrected | src/transfer-file/infrastructure/workers/transfer-file.processor.ts:53-97 | the corrected `try`/`catch`/`finally` for a loaded file |
| FileProcessor.WriteFinal | src/transfer-file/infrastructure/workers/transfer-file.processor.ts:69-81 | the final mutator on the refreshed entity leaves the record as the run of both mutators |
| FileProcessor.DownloadLeavesTracks | src/transfer-file/infrastructure/strategies/crawler.service.ts:291-299 | a successful download whose video track could not be removed leaves the merged file and the audio track on disk |
| FileProcessor.OutputRenamedToTalk | src/transfer-file/infrastructure/workers/transfer-file.processor.ts:109-124 | the merged file renamed to `talk.mp4` is uploaded from the downloads directory, and the audio track stays where it was |
| FileProcessor.RenameToTalk | src/transfer-file/infrastructure/workers/transfer-file.processor.ts:109-124 | renaming one file of a plain directory leaves every other file in place |
| FileProcessor.RenamedJobLeavesAudioTrack | src/transfer-file/infrastructure/workers/transfer-file.processor.ts:62-97 | as written, a job uploading `talk.mp4` after the crawler could not remove its tracks leaves the audio track on disk; corrected, it is removed |
| Crawler.UrlText | src/transfer-file/infrastructure/strategies/crawler.service.ts:131-139 | a URL as text is never empty |
| Crawler.StripParams | src/transfer-file/infrastructure/strategies/crawler.service.ts:131-135 | the kept query is the input's parameters not named range, rbuf, ump or srfvp, in their order and with their repetitions, as the backward-built reference `KeptBackward` gives them |
| Crawler.KeptBackwardFirst | src/transfer-file/infrastructure/strategies/crawler.service.ts:131-135 | the reference keeps a first parameter unless stripped, ahead of what it keeps of the rest |
| Crawler.StreamUrl | src/transfer-file/infrastructure/strategies/crawler.service.ts:131-142 | the captured URL keeps what precedes the query, and is the request URL itself when it has no stripped parameter |
| Crawler.StreamUrlOfStripped | src/transfer-file/infrastructure/strategies/crawler.service.ts:131-135 | a URL whose parameters were already stripped is captured as the original would be |
| Crawler.StripKeepsOthers | src/transfer-file/infrastructure/strategies/crawler.service.ts:131-135 | a query without those names is kept as it is |
| Crawler.StripIdempotent | src/transfer-file/infrastructure/strategies/crawler.service.ts:131-135 | stripping twice is stripping once |
| Crawler.ObserveAllAppend | src/transfer-file/infrastructure/strategies/crawler.service.ts:128-146 | the handler run over two batches of requests is the handler run over their concatenation |
| Crawler.FirstVideo | src/transfer-file/infrastructure/strategies/crawler.service.ts:137-140 | the first request that is a video candidate, or none when no request is |
| Crawler.FirstAudioFrom | src/transfer-file/infrastructure/strategies/crawler.service.ts:141-144 | the first request from a position on taken as the audio stream, or none |
| Crawler.FirstVideoSnoc | src/transfer-file/infrastructure/strategies/crawler.service.ts:137-140 | one more request changes the first video candidate only when there was none |
| Crawler.AudioAtSnoc | src/transfer-file/infrastructure/strategies/crawler.service.ts:137-144 | one more request leaves which earlier requests are taken as audio unchanged |
| Crawler.FirstAudioFromSnoc | src/transfer-file/infrastructure/strategies/crawler.service.ts:141-144 | one more request changes the first audio candidate only when there was none |
| Crawler.FirstAudioSnoc | src/transfer-file/infrastructure/strategies/crawler.service.ts:141-144 | the same, from the start |
| Crawler.ObserverKeepsFirstSeen | src/transfer-file/infrastructure/strategies/crawler.service.ts:124-146 | first seen wins: the handler, started empty, ends holding the first video candidate with its headers and the first audio candidate not taken as video |
| Crawler.StreamCapture.constructor | src/transfer-file/infrastructure/strategies/crawler.service.ts:124-126 | the captured variables start empty |
| Crawler.StreamCapture.OnRequest | src/transfer-file/infrastructure/strategies/crawler.service.ts:128-146 | the handler fills the empty video slot with a video candidate's stripped URL and headers, else the empty audio slot with an audio candidate's; nothing is ever overwritten |
| Crawler.Deliver | src/transfer-file/infrastructure/strategies/crawler.service.ts:128-146 | requests reaching the handler one after another leave it as the handler run over them |
| Crawler.SeenAfterStep | src/transfer-file/infrastructure/strategies/crawler.service.ts:215-217 | one more wait adds its requests to what the handler saw |
| Crawler.ChecksFrom | src/transfer-file/infrastructure/strategies/crawler.service.ts:214-222 | the loop makes between the current count and 60 checks |
| Crawler.ChecksStopFirst | src/transfer-file/infrastructure/strategies/crawler.service.ts:214-222 | the loop stops at the first check at which both streams are seen, or at 60, and never later |
| Crawler.NudgeSchedule | src/transfer-file/infrastructure/strategies/crawler.service.ts:218-220 | a click follows check c exactly when c is a multiple of five and no video stream has been seen by then |
| Crawler.NudgeAt | src/transfer-file/infrastructure/strategies/crawler.service.ts:218-220 | the same, for one check |
| Crawler.NudgeCount | src/transfer-file/infrastructure/strategies/crawler.service.ts:218-220 | at most one click per five checks |
| Crawler.WaitForStreams | src/transfer-file/infrastructure/strategies/crawler.service.ts:213-222 | the wait loop makes the checks `Checks` specifies, leaves the handler holding what those waits delivered, and clicks after exactly the checks `Nudges` lists |
| Crawler.WaitOnce | src/transfer-file/infrastructure/strategies/crawler.service.ts:215-220 | one wait: its requests reach the handler and the click follows when the schedule says |
| Crawler.CookieHeaderShape | src/transfer-file/infrastructure/strategies/crawler.service.ts:232-233 | the rebuilt cookie header is empty exactly when there are no cookies, and each further cookie adds `; name=value` |
| Crawler.BrowserOutcomeFirstSeen | src/transfer-file/infrastructure/strategies/crawler.service.ts:79-246 | a run yields the first video and first audio candidate among the requests it saw and fails with the timeout exactly when one never came; only a headless run reports an expired session |
| Crawler.RunBrowser | src/transfer-file/infrastructure/strategies/crawler.service.ts:79-246 | the method returns what `BrowserOutcome` specifies: an expired session in headless mode on a login page, the timeout, or both stream URLs with the captured or rebuilt headers |
| Crawler.CurlSeesRefinedHeaders | src/transfer-file/infrastructure/strategies/crawler.service.ts:230-240 | curl gets the captured cookie when there was one; otherwise the rebuilt cookie (undefined when there were no cookies), the page's user agent and the Drive referer |
| Crawler.CurlOutcome | src/transfer-file/infrastructure/strategies/crawler.service.ts:55-73 | a curl run succeeds exactly when it wrote at least 100000 bytes; a failed run reports its error, a small file the size message |
| Crawler.DownloadWithCurl | src/transfer-file/infrastructure/strategies/crawler.service.ts:42-74 | the method's outcome is `CurlOutcome`, and the output file exists afterwards exactly when curl wrote it |
| Crawler.TrackNameIsPlain | src/transfer-file/infrastructure/strategies/crawler.service.ts:270-273 | a track file name holds no separator |
| Crawler.TrackPathIs | src/transfer-file/infrastructure/strategies/crawler.service.ts:270-273 | a track path is `<cwd>/downloads/<prefix><timestamp>.mp4` |
| Crawler.TrackPathAsChild | src/transfer-file/infrastructure/strategies/crawler.service.ts:270-273 | a track file is a plain child of the downloads directory |
| Crawler.TrackPaths | src/transfer-file/infrastructure/strategies/crawler.service.ts:270-273 | the video, audio and output paths lie side by side in the downloads directory and are pairwise distinct |
| Crawler.TrackPathSpelled | src/transfer-file/infrastructure/strategies/crawler.service.ts:270-273 | a track path with its separator written into the prefix |
| Crawler.TrackPathsDiffer | src/transfer-file/infrastructure/strategies/crawler.service.ts:270-273 | tracks whose prefixes start differently have different paths |
| Crawler.ChildrenDiffer | src/transfer-file/infrastructure/strategies/crawler.service.ts:270-273 | children of one directory whose names start differently differ |
| Crawler.DownloadAndProcess | src/transfer-file/infrastructure/strategies/crawler.service.ts:251-300 | the method's outcome is `DownloadOutcome` and the disk ends as `FilesAfterDownload` says |
| Crawler.DownloadSucceeds | src/transfer-file/infrastructure/strategies/crawler.service.ts:251-300 | a successful download returns the output path, both tracks passed the size threshold, the merged file exists and the temporary tracks are gone unless their removal was refused; a failure leaves no output |
| Crawler.RetryOnlyOnExpiry | src/transfer-file/infrastructure/strategies/crawler.service.ts:255-264 | the visible run is used only after an expired headless session, and the capture never ends with an expired session |
| TransferUseCases.CreateTransferFolder | src/transfer-file/application/use-cases/create-transfer-folder.use-case.ts:23-43 | the new folder is stored PENDING under a fresh id with the given name or 'Transfer', then exactly one 'scan-folder' job naming the stored folder's id and URL is queued, and the stored folder is returned |
| TransferUseCases.FileJobs | src/transfer-file/application/use-cases/process-pending-files.use-case.ts:25-29 | one 'process-file' job per file, naming that file, in order |
| TransferUseCases.ProcessPendingFiles | src/transfer-file/application/use-cases/process-pending-files.use-case.ts:18-33 | one 'process-file' job is queued per PENDING file, oldest first, and the count returned is the number of pending files |
| TransferUseCases.EnqueueFiles | src/transfer-file/application/use-cases/retry-failed-files.use-case.ts:28-32 | the loop queues one 'process-file' job per file, in order, after the jobs already there |
| TransferUseCases.FailedWhereSelectsFailed | src/transfer-file/application/use-cases/retry-failed-files.use-case.ts:18-19 | the failed-file query selects exactly the records that load as FAILED |
| TransferUseCases.PendingClauseWritesStatus | src/transfer-file/application/use-cases/retry-failed-files.use-case.ts:22-25 | a failed file marked pending is dirty: its update writes the status |
| TransferUseCases.ResetReloads | src/transfer-file/application/use-cases/retry-failed-files.use-case.ts:22-25 | a reset record keeps its id and loads as the file after `markAsPending`, no longer FAILED |
| TransferUseCases.RetryAllEffect | src/transfer-file/application/use-cases/retry-failed-files.use-case.ts:15-44 | retrying keeps every record in place under its id, turns each failed file into the same file PENDING with no error log, leaves the others alone, and leaves no failed file |
| TransferUseCases.ResetOneMore | src/transfer-file/application/use-cases/retry-failed-files.use-case.ts:22-25 | resetting one more failed record by its id extends the set of reset records |
| TransferUseCases.RetryFailedFiles | src/transfer-file/application/use-cases/retry-failed-files.use-case.ts:15-44 | every failed file is reset to PENDING and written back, one 'process-file' job is queued per failed file in listed order, and the count and summaries returned are those of the failed files |
| TransferUseCases.ResetFailedFiles | src/transfer-file/application/use-cases/retry-failed-files.use-case.ts:21-25 | the reset loop leaves the store as `RetryAll` says |
| TransferUseCases.ResetListed | src/transfer-file/application/use-cases/retry-failed-files.use-case.ts:22-25 | one turn of the reset loop resets the next listed failed file |
| TransferUseCases.ListedStep | src/transfer-file/application/use-cases/retry-failed-files.use-case.ts:22-25 | the next listed failed file sits in the store as a failed record whose id is not yet reset |
| TransferUseCases.IdsOfPrefixStep | src/transfer-file/application/use-cases/retry-failed-files.use-case.ts:22-25 | one more listed record adds its id to the reset ids |
| TransferUseCases.IdsOf | src/transfer-file/application/use-cases/retry-failed-files.use-case.ts:22-25 | every listed record's id is among the ids |
| TransferUseCases.LaterIdUnlisted | src/transfer-file/application/use-cases/retry-failed-files.use-case.ts:22-25 | with distinct ids, a record's id is not among those listed before it |
| TransferUseCases.IdsOfOthers | src/transfer-file/application/use-cases/retry-failed-files.use-case.ts:22-25 | an id no listed record has is not among the ids |
| TransferUseCases.ListedIndex | src/transfer-file/application/use-cases/retry-failed-files.use-case.ts:18-19 | each listed failed file is a failed record of the store |
| TransferUseCases.FailedAllListed | src/transfer-file/application/use-cases/retry-failed-files.use-case.ts:21-25 | once every failed record's id is reset, the store is as `RetryAll` says |
| TransferUseCases.ResetFile | src/transfer-file/application/use-cases/retry-failed-files.use-case.ts:22-25 | one pass of the loop adds the file's id to the reset ids |
| TransferUseCases.MarkPendingAndUpdate | src/transfer-file/application/use-cases/retry-failed-files.use-case.ts:57-58 | a failed file marked pending and written back: only its pending clause is written, and its record becomes the reset record |
| TransferUseCases.RetryFailedFile | src/transfer-file/application/use-cases/retry-failed-files.use-case.ts:46-67 | retried exactly when the file exists and is FAILED; otherwise nothing is written or queued; when retried, only the pending clause is written, the file loads PENDING with no error log, and one 'process-file' job is queued |
| JobQueue.Queue.constructor | src/transfer-file/infrastructure/workers/transfer-folder.processor.ts:17 | a queue starts empty under its name |
| JobQueue.Queue.Add | src/transfer-file/application/use-cases/create-transfer-folder.use-case.ts:36-39 | `add` puts the job at the back of the queue and changes nothing else |
| LocalFs.LocalDisk.constructor | src/transfer-file/infrastructure/workers/transfer-file.processor.ts:147-170 | the disk holds the given files |
| LocalFs.LocalDisk.Write | src/transfer-file/infrastructure/strategies/crawler.service.ts:53-56 | writing a path adds it to the disk |
| LocalFs.LocalDisk.Unlink | src/transfer-file/infrastructure/workers/transfer-file.processor.ts:162-163 | unlinking succeeds exactly when the file exists and its removal is not refused, and then removes just that file |
| LocalFs.LocalDisk.Rename | src/transfer-file/infrastructure/workers/transfer-file.processor.ts:115-117 | renaming succeeds exactly when the source exists and the rename is not refused, and then moves just that file |
| DriveAccount.ParseStatus | src/drive-account/domain/entities/drive-account.entity.ts:11-21 | a stored status name reads back as the enum member of that name, and as none when no member has it |
| DriveAccount.ParseStatusName | src/drive-account/domain/entities/drive-account.entity.ts:11-21 | every status reads back from its stored name |
| DriveAccount.ObjectIsStatePlusId | src/drive-account/domain/entities/drive-account.entity.ts:134-157 | `toObject` is `getCurrentState` plus the id, and the id is never part of the state |
| DriveAccount.NewAccount | src/drive-account/domain/entities/drive-account.entity.ts:112-127 | a new account has id '0' and the given email and name |
| DriveAccount.NewAccountIsIdle | src/drive-account/domain/entities/drive-account.entity.ts:112-234 | a new account is INACTIVE with no storage, no token and both timestamps at creation, so its token counts as expired, it is not usable and has room for nothing |
| DriveAccount.ExpiryPersists | src/drive-account/domain/entities/drive-account.entity.ts:203-234 | once expired, a token stays expired and the account unusable as the clock advances |
| DriveAccount.SpaceIsDownwardClosed | src/drive-account/domain/entities/drive-account.entity.ts:212-216 | room for a requirement is room for any smaller one |
| DriveAccount.StepChangesOnlyTouched | src/drive-account/domain/entities/drive-account.entity.ts:166-251 | each mutator changes only the properties it is meant to, so only those reach the update clause; the email never does |
| DriveAccount.UpdateApiOverwritesGiven | src/drive-account/domain/entities/drive-account.entity.ts:236-243 | a given name or status replaces the old one, an absent one keeps it; id and email stay; `updatedAt` is the clock reading |
| DriveAccount.UsableAfterTokenRefresh | src/drive-account/domain/entities/drive-account.entity.ts:195-234 | after a token refresh the account is usable exactly until the new expiry, whatever its status was |
| DriveAccount.DeactivatedIsUnusable | src/drive-account/domain/entities/drive-account.entity.ts:175-234 | deactivating with the default or any reason but ACTIVE makes the account unusable; the default reason is INACTIVE |
| DriveAccount.SpaceAfterStorageUpdate | src/drive-account/domain/entities/drive-account.entity.ts:185-216 | after `updateStorage` the free-space check is decided by the new figures alone: a known total whose free space strictly exceeds the requirement |
| DriveAccount.RunKeepsIdentity | src/drive-account/domain/entities/drive-account.entity.ts:166-251 | whatever mutators run, id, email and createdAt stay, and after at least one of them updatedAt is the clock reading |
| DriveAccount.AccountEntity.constructor | src/drive-account/domain/entities/drive-account.entity.ts:40-56 | the account holds exactly the given properties, and its snapshot is their state |
| DriveAccount.AccountEntity.Touch | src/drive-account/domain/entities/drive-account.entity.ts:249-251 | `updateTimestamp` sets `updatedAt` to the clock reading and nothing else |
| DriveAccount.AccountEntity.Activate | src/drive-account/domain/entities/drive-account.entity.ts:166-169 | the account becomes ACTIVE |
| DriveAccount.AccountEntity.Deactivate | src/drive-account/domain/entities/drive-account.entity.ts:175-180 | the account takes the given status, INACTIVE by default |
| DriveAccount.AccountEntity.UpdateStorage | src/drive-account/domain/entities/drive-account.entity.ts:185-189 | used and total storage take the given figures |
| DriveAccount.AccountEntity.UpdateTokenInfo | src/drive-account/domain/entities/drive-account.entity.ts:195-198 | the token expiry is set and the account activated |
| DriveAccount.AccountEntity.MarkAsUpdateApi | src/drive-account/domain/entities/drive-account.entity.ts:236-243 | the given name and status replace the old ones |
| DriveAccount.Create | src/drive-account/domain/entities/drive-account.entity.ts:112-127 | `create` returns a clean new account as `NewAccount` describes |
| DriveAccount.FromData | src/drive-account/domain/entities/drive-account.entity.ts:91-105 | `fromData` returns a clean account holding exactly the given properties |
| DriveAccountDto.CoerceNumber | src/drive-account/presentation/dto/list-drive-account.query.dto.ts:49-50 | blank query text coerces to 0, as `Number('')` does |
| DriveAccountDto.CoerceIntToString | src/drive-account/presentation/dto/list-drive-account.query.dto.ts:49-50 | coercing the text of an integer gives the integer back |
| DriveAccountDto.CoerceDigits | src/drive-account/presentation/dto/list-drive-account.query.dto.ts:49-50 | a run of digits coerces to its value |
| DriveAccountDto.CoerceNegative | src/drive-account/presentation/dto/list-drive-account.query.dto.ts:49-50 | a minus sign and digits coerce to the negated value |
| DriveAccountDto.TrimUntrimmed | src/drive-account/presentation/dto/list-drive-account.query.dto.ts:59 | text that neither starts nor ends with white space trims to itself |
| DriveAccountDto.ParseListQuery | src/drive-account/presentation/dto/list-drive-account.query.dto.ts:48-69 | the endpoint's schema accepts exactly when every field parses; a rejection names the fields at fault; an accepted query has a limit of at most 100, a listed order column, the search trimmed and the status named as sent |
| DriveAccountDto.ListQueryDefaults | src/drive-account/presentation/dto/list-drive-account.query.dto.ts:48-65 | an empty query lists page 1 of 10, ordered by id, descending |
| DriveAccountDto.NoLowerBounds | src/drive-account/presentation/dto/list-drive-account.query.dto.ts:49-50 | any page and any limit up to 100 is accepted as given, zero and negative values included |
| DriveAccountDto.LimitAboveHundredRejected | src/drive-account/presentation/dto/list-drive-account.query.dto.ts:50 | a limit above 100 is rejected, naming the limit |
| DriveAccountDto.EmptyParameters | src/drive-account/presentation/dto/list-drive-account.query.dto.ts:48-69 | the schema in use has no empty-string preprocessing: an empty `page=` becomes page 0 and an empty `status=` is rejected |
| DriveAccountDto.ParseListQueryBounded | src/drive-account/presentation/dto/list-drive-account.query.dto.ts:48-50 | corrected schema: accepted exactly when the schema in use accepts and page and limit are at least 1, giving the same value; then the skip `(page - 1) * limit` of list-drive-accounts.use-case.ts line 19 is never negative |
| DriveAccountDto.EmailPatternIsShape | src/drive-account/presentation/dto/create-drive-account.dto.ts:9 | the pattern `^[^\s@]+@[^\s@]+\.[^\s@]+$` accepts exactly the strings without white space holding one '@', not first, followed later by a '.' with a character on each side |
| DriveAccountDto.PatternGivesShape | src/drive-account/presentation/dto/create-drive-account.dto.ts:9 | a string the pattern accepts has that shape |
| DriveAccountDto.ShapeAroundAt | src/drive-account/presentation/dto/create-drive-account.dto.ts:9 | a string with one '@' and a later '.', free of white space, has that shape |
| DriveAccountDto.RunMembers | src/drive-account/presentation/dto/create-drive-account.dto.ts:9 | each character of a matched run is neither white space nor '@' |
| DriveAccountDto.RunNoSpaceOrAt | src/drive-account/presentation/dto/create-drive-account.dto.ts:9 | a run of such characters matches `[^\s@]*` |
| DriveAccountDto.ShapeGivesPattern | src/drive-account/presentation/dto/create-drive-account.dto.ts:9 | a string of that shape is accepted by the pattern |
| DriveAccountDto.ValidateCreate | src/drive-account/presentation/dto/create-drive-account.dto.ts:4-10 | the create body is accepted exactly when the name has 1 to 255 characters and the email at most 255 and the e-mail shape; a rejection names the name exactly when the name is at fault |
| DriveAccountDto.ValidateUpdate | src/drive-account/presentation/dto/update-drive-account.dto.ts:5-15 | the update body is accepted exactly when a given name has 1 to 255 characters and a given status names a member; the accepted name and status are those sent |
| DriveAccountDto.UpdateEdgeCases | src/drive-account/presentation/dto/update-drive-account.dto.ts:5-15 | an empty body is a valid update changing nothing; an empty name is rejected |
| DriveAccountRepository.AccountFromRecord | src/drive-account/infrastructure/prisma-drive-account.repository.ts:27-29 | a loaded account keeps the record's id and every column as stored, and has an expiry exactly when the column holds a date |
| DriveAccountRepository.AccountCreateInput | src/drive-account/infrastructure/prisma-drive-account.repository.ts:31-37 | the create input is the account's state without the id, with every property written |
| DriveAccountRepository.AccountCreateLoadsBack | src/drive-account/infrastructure/prisma-drive-account.repository.ts:27-37 | an account written through its create input loads back as itself, carrying the id the store gave it |
| DriveAccountRepository.StatusColumnAfter | src/core/base/repository.base.ts:221-241 | after an update the status column holds the new status when it changed and the stored one otherwise |
| DriveAccountRepository.AccountReloadsAfterUpdate | src/core/base/repository.base.ts:221-241 | writing the changed columns of a loaded account and loading the record again gives the account as it now is |
| DriveAccountRepository.ReloadsIdentity | src/core/base/repository.base.ts:221-241 | name and email survive that round trip |
| DriveAccountRepository.ReloadsStatus | src/core/base/repository.base.ts:221-241 | the status survives that round trip |
| DriveAccountRepository.ReloadsTimes | src/core/base/repository.base.ts:221-241 | the creation and update times survive that round trip |
| DriveAccountRepository.ReloadsStorage | src/core/base/repository.base.ts:221-241 | the storage figures and the token expiry survive that round trip |
| DriveAccountRepository.AccountsOf | src/drive-account/infrastructure/prisma-drive-account.repository.ts:126 | `accounts.map(fromData)`: one account per record, in order |
| DriveAccountRepository.FindByEmail | src/drive-account/infrastructure/prisma-drive-account.repository.ts:39-51 | null exactly when no record holds the email; otherwise an account loaded from a stored record, with that email |
| DriveAccountRepository.AccountWhereSelects | src/drive-account/infrastructure/prisma-drive-account.repository.ts:87-95 | a record matches exactly when it has the asked status (if any) and, when the search text is not empty, its name or email contains it ignoring case |
| DriveAccountRepository.StatusFilterSelectsStatus | src/drive-account/infrastructure/prisma-drive-account.repository.ts:87-88 | a status filter selects exactly the accounts in that status |
| DriveAccountRepository.PageRecords | src/drive-account/infrastructure/prisma-drive-account.repository.ts:105-110 | a negative skip is refused; otherwise at most `take` records |
| DriveAccountRepository.FindManyWithCount | src/drive-account/infrastructure/prisma-drive-account.repository.ts:74-128 | the page is the loaded page records and the total is the count under the same `where` clause; a negative skip fails |
| DriveAccountRepository.TotalIgnoresPaging | src/drive-account/infrastructure/prisma-drive-account.repository.ts:111 | the total depends only on status and search, not on skip, take or order |
| DriveAccountRepository.PageMatchesAndIsSorted | src/drive-account/infrastructure/prisma-drive-account.repository.ts:105-111 | every listed record is stored and matches the filter, the page is in the asked order, and it holds no more records than the total |
| DriveAccountRepository.AccountRepository.constructor | src/drive-account/infrastructure/prisma-drive-account.repository.ts:23-25 | the repository works on the given table |
| DriveAccountRepository.AccountRepository.FindById | src/core/base/repository.base.ts:131-142 | null when no record has the id; otherwise a clean account loaded from that record |
| DriveAccountRepository.AccountRepository.Create | src/core/base/repository.base.ts:207-219 | exactly one record is appended, holding the account's state under a fresh id that is not '0' and not used before; the returned account is the input with that id, clean |
| DriveAccountRepository.AccountRepository.Update | src/core/base/repository.base.ts:221-241 | a clean account writes nothing and comes back as it is; a dirty one writes only its changed columns to its record and comes back reloaded and clean; a missing record fails and writes nothing |
| DriveAccountRepository.AccountRepository.DeleteByIds | src/core/base/repository.base.ts:159-168 | every record whose id is listed is removed and no other; the count is the number removed, at most the number of ids |
| DriveAccountRepository.WithoutKeepsAllIff | src/core/base/repository.base.ts:159-168 | deleting removes nothing exactly when no stored id is listed |
| DriveAccountUseCases.Save | src/core/base/repository.base.ts:144-157 | id '0' appends one record holding the entity's state and returns it with its new id; any other id takes the update path: a clean entity writes nothing, a stored one gets its changed columns written and comes back reloaded |
| DriveAccountUseCases.CreateDriveAccount | src/drive-account/application/use-cases/create-drive-account.use-case.ts:16-30 | an email already on record gives the conflict error and writes nothing; otherwise exactly one record is appended, holding the new idle account, and the saved account with its new id is returned; distinct emails stay distinct |
| DriveAccountUseCases.CreatedAccountIsFoundByEmail | src/drive-account/application/use-cases/create-drive-account.use-case.ts:16-29 | after a create the email finds the new account and only it |
| DriveAccountUseCases.EmailColumnOfState | src/drive-account/application/use-cases/create-drive-account.use-case.ts:24-29 | a stored account's email column holds its email |
| DriveAccountUseCases.GetDriveAccount | src/drive-account/application/use-cases/get-drive-account.use-case.ts:15-23 | the not-found error, with the id in its message, exactly when no record has the id; otherwise the account loaded from a stored record with that id |
| DriveAccountUseCases.UpdateDriveAccount | src/drive-account/application/use-cases/update-drive-account.use-case.ts:16-25 | a missing account gives the not-found error and writes nothing; otherwise the returned account and the stored record, loaded again, are both the loaded account with the given name and status applied |
| DriveAccountUseCases.NoChangesReloads | src/drive-account/application/use-cases/update-drive-account.use-case.ts:22-24 | an update that changes no column leaves a record that already loads as the updated account |
| DriveAccountUseCases.DeleteDriveAccounts | src/drive-account/application/use-cases/delete-drive-accounts.use-case.ts:14-22 | every listed account is removed and no other; the error, with its fixed message, exactly when ids were given and none of them is stored |
| DriveAccountUseCases.ListDriveAccounts | src/drive-account/application/use-cases/list-drive-accounts.use-case.ts:16-30 | the listing fails exactly when `(page - 1) * limit` is negative; otherwise at most `limit` accounts and the total count under the status and search filter |
| DriveAccountUseCases.PagingArithmetic | src/drive-account/application/use-cases/list-drive-accounts.use-case.ts:19-20 | page 1 skips nothing, each next page starts where the previous one ended, and `take` is the limit |
| DriveAccountUseCases.PagesAdjoin | src/drive-account/application/use-cases/list-drive-accounts.use-case.ts:19-20 | a page followed by the next page is the double-size page at the first offset |
| DriveAccountUseCases.ListPagesAdjoin | src/drive-account/application/use-cases/list-drive-accounts.use-case.ts:16-30 | listing page p and then page p + 1 of a query gives, in order, the accounts of the double-size page at page p's offset |
| DriveAccountUseCases.PageZeroFails | src/drive-account/application/use-cases/list-drive-accounts.use-case.ts:19 | as written: the query `page=0` is accepted, and its listing is refused by the store (skip -10) |
| DriveAccountUseCases.BoundedQueryLists | src/drive-account/application/use-cases/list-drive-accounts.use-case.ts:19 | corrected: every query the bounded schema accepts lists without error |
| User.ParseRole | src/user/domain/user.entity.ts:14 | a role name parses to the role carrying that name; any other text to nothing |
| User.ParseRoleName | src/user/domain/user.entity.ts:14 | every role's name parses back to the role |
| User.ObjectIsStatePlusId | src/user/domain/user.entity.ts:128-146 | `toObject` is `getCurrentState` plus the id, and the state holds no id |
| User.OrNull | src/user/domain/user.entity.ts:114-118 | `x \|\| null`: absent or empty text becomes null; anything else is kept |
| User.NewUser | src/user/domain/user.entity.ts:103-124 | a new user has id '0', the given email, no verification date, both times at the clock reading, the given role or USER, and name, image and password null exactly when absent or empty |
| User.NewUserAdminIff | src/user/domain/user.entity.ts:117-156 | a new user is an administrator exactly when created with the ADMIN role |
| User.StepChangesOnlyTouched | src/user/domain/user.entity.ts:158-167 | each mutator changes only the properties it touches; email, role and password never enter the update clause |
| User.UpdateProfileKeepsEmpty | src/user/domain/user.entity.ts:114-160 | `updateProfile` keeps an empty name, where `create` turns it into null; an omitted image keeps the old one |
| User.VerifyEmailVerifies | src/user/domain/user.entity.ts:164-167 | after `verifyEmail` the user is verified as of the clock reading, and only the verification date and `updatedAt` change |
| User.RunKeepsIdentity | src/user/domain/user.entity.ts:22-30 | whatever mutators run, id, email, role, password and creation time stay as they were, and so does being an administrator |
| User.UserEntity.constructor | src/user/domain/user.entity.ts:35-50 | the user holds exactly the given properties and its snapshot is their state |
| User.UserEntity.IsAdministrator | src/user/domain/user.entity.ts:154-156 | true exactly when the role is ADMIN |
| User.UserEntity.Touch | src/user/domain/user.entity.ts:148-150 | only `updatedAt` changes, to the clock reading |
| User.UserEntity.UpdateProfile | src/user/domain/user.entity.ts:158-162 | a given name or image replaces the old one, even when empty; an omitted one is kept; `updatedAt` is refreshed; nothing else changes |
| User.UserEntity.VerifyEmail | src/user/domain/user.entity.ts:164-167 | the verification date and `updatedAt` become the clock reading; nothing else changes |
| User.Create | src/user/domain/user.entity.ts:103-124 | a fresh, clean user holding the new user's properties |
| User.FromData | src/user/domain/user.entity.ts:84-98 | a fresh, clean user holding exactly the loaded properties, its snapshot their state |
| UserRepository.UserFromRecord | src/user/infrastructure/prisma-user.repository.ts:23-25 | a loaded user keeps the record's id and every column as stored; it has a password and a verification date exactly when the columns hold them |
| UserRepository.UserCreateInput | src/user/infrastructure/prisma-user.repository.ts:27-31 | the create input is the user's state without the id, with every property written |
| UserRepository.UserCreateLoadsBack | src/user/infrastructure/prisma-user.repository.ts:23-31 | a user written through its create input loads back as itself, with the id the store gave it |
| UserRepository.RoleColumnAfter | src/core/base/repository.base.ts:221-241 | after an update the role column holds the new role when it changed and the stored one otherwise |
| UserRepository.UserReloadsAfterUpdate | src/core/base/repository.base.ts:221-241 | writing the changed columns of a loaded user and loading the record again gives the user as it now is |
| UserRepository.ReloadsText | src/core/base/repository.base.ts:221-241 | email, name and image survive that round trip |
| UserRepository.ReloadsAccess | src/core/base/repository.base.ts:221-241 | verification date, role and password survive that round trip |
| UserRepository.ReloadsTimes | src/core/base/repository.base.ts:221-241 | the creation and update times survive that round trip |
| UserRepository.FindByEmail | src/user/infrastructure/prisma-user.repository.ts:33-45 | null exactly when no record holds the email; otherwise a user loaded from a stored record, with that email |
| UserRepository.UserRepository.constructor | src/user/infrastructure/prisma-user.repository.ts:19-21 | the repository works on the given table |
| UserRepository.UserRepository.Create | src/core/base/repository.base.ts:207-219 | exactly one record is appended, holding the user's state under a fresh id that is not '0'; the returned user is the input with that id, clean |
| UserRepository.UserRepository.Update | src/core/base/repository.base.ts:221-241 | a clean user writes nothing and comes back as it is; a dirty one writes only its changed columns and comes back reloaded and clean; a missing record fails and writes nothing |
| UserRepository.UserRepository.Save | src/core/base/repository.base.ts:144-157 | id '0' takes the create path; any other id takes the update path, with the same outcomes |
| UserUseCases.CreateUser | src/user/application/use-cases/create-user.use-case.ts:16-23 | an email already on record throws the duplicate-email conflict and writes nothing; otherwise a new user is appended once and returned with its new id, and distinct emails stay distinct; a clean stored user comes back as it is |
| UserUseCases.CreatedUserIsFoundByEmail | src/user/application/use-cases/create-user.use-case.ts:16-22 | after a user is created the email finds that user and only it |
| UserUseCases.EmailColumnOfState | src/user/application/use-cases/create-user.use-case.ts:17-22 | a stored user's email column holds its email |
| Auth.StripOmitsOnlyPassword | src/auth/application/use-cases/validate-user.use-case.ts:25-30 | the returned user is `toObject()` with the password property removed and nothing else |
| Auth.ValidateUser | src/auth/application/use-cases/validate-user.use-case.ts:11-31 | it returns exactly when a user with that email exists, has a non-empty password hash and the hash matches; what it returns is that stored user without the password; every refusal is the invalid-credentials error |
| Auth.DomainValidateUser | src/auth/domain/auth.domain-service.ts:12-37 | it returns exactly when the user exists, is an administrator and the password matches a non-empty hash; what it returns is an administrator with that email; every refusal is the invalid-credentials error |
| Auth.DomainIsUseCaseForAdmins | src/auth/domain/auth.domain-service.ts:18-36 | the domain service admits only users the use case admits, with the same result, and the two agree outright on administrators |
| Auth.NonAdminRefused | src/auth/domain/auth.domain-service.ts:18-25 | a user who is not an administrator is refused whatever the password, without the hash being compared; the use case would admit them with the right password |
| Auth.NoCompareWithoutHash | src/auth/application/use-cases/validate-user.use-case.ts:17-23 | an unknown email or a user without a password is refused before any hash is compared, by both checks |
| Auth.RefusalsIndistinguishable | src/core/base/error.base.ts:254-258 | every refusal, by either check, is the same 401 UNAUTHORIZED error "Invalid credentials": an unknown email cannot be told from a wrong password |
| Errors.CodeIdentifiesClass | src/core/base/error.base.ts:116-391 | each error class passes a code of its own, so the code tells the class; every status is an HTTP error status, and only the infrastructure and external-service classes report 5xx |
| Errors.NewError | src/core/base/error.base.ts:22-39 | every constructed error is operational, named after its class and carries its class's code and status; the context defaults to an empty object and the original error is kept as given |
| Errors.NotFoundResource | src/core/base/error.base.ts:136-144 | the message names the identifier exactly when one is given and not empty; the context records both arguments |
| Errors.NotFoundResourceShape | src/core/base/error.base.ts:136-144 | either message starts with the resource type and ends with " not found" |
| Errors.NotFoundEntity | src/core/base/error.base.ts:146-153 | the message is "<entity> not found" and the context records the criteria |
| Errors.ConflictDuplicate | src/core/base/error.base.ts:165-169 | a 409 whose message names the field and the value, with context type "duplicate" |
| Errors.ConflictConstraint | src/core/base/error.base.ts:171-175 | the given message when it is not empty, otherwise "Constraint violation: <constraint>" |
| Errors.ConflictState | src/core/base/error.base.ts:177-185 | the given message, with the current and expected states in the context |
| Errors.BusinessRuleViolation | src/core/base/error.base.ts:202-210 | a 400 with the given message and the rule and violated value in the context |
| Errors.BusinessPermission | src/core/base/error.base.ts:212-219 | "Cannot <action> <resource>: insufficient permissions", with context type "permission" |
| Errors.UnauthorizedError | src/core/base/error.base.ts:225-233 | a 401 whose message is the one given, or "Authentication required" when it is absent or empty; never empty |
| Errors.UnauthorizedOf | src/core/base/error.base.ts:236-258 | the shape every unauthorized factory shares: the given message and a context holding only its type |
| Errors.MissingToken | src/core/base/error.base.ts:236-240 | "Missing authentication token", type "missing_token" |
| Errors.InvalidToken | src/core/base/error.base.ts:242-246 | "Invalid authentication token", type "invalid_token" |
| Errors.ExpiredToken | src/core/base/error.base.ts:248-252 | "Authentication token has expired", type "expired_token" |
| Errors.InvalidCredentials | src/core/base/error.base.ts:254-258 | a 401 "Invalid credentials", type "invalid_credentials" |
| Errors.ForbiddenError | src/core/base/error.base.ts:264-272 | a 403 whose message is the one given, or "Access forbidden" when absent or empty |
| Errors.ForbiddenAction | src/core/base/error.base.ts:275-279 | "Cannot <action> <resource>", type "action" |
| Errors.ForbiddenRole | src/core/base/error.base.ts:281-285 | "Requires <role> role", with the user's role (or undefined) in the context |
| Errors.DatabaseFailure | src/core/base/error.base.ts:302-310 | a 500 "Database <operation> failed" that keeps the original error, service "database" |
| Errors.ServiceFailure | src/core/base/error.base.ts:312-321 | "<service> <operation> failed", keeping the original error |
| Errors.ConnectionFailure | src/core/base/error.base.ts:323-331 | "Connection to <service> failed", keeping the original error, type "connection" |
| Errors.InternalFailure | src/core/base/error.base.ts:333-338 | the given message, keeping the original error, with context type "internal" only |
| Errors.ExternalApiFailure | src/core/base/error.base.ts:355-365 | a 502 "<service> API call failed" that keeps the original error and records the upstream status (or undefined) |
| Errors.ExternalTimeout | src/core/base/error.base.ts:367-371 | "<service> <operation> timed out", type "timeout", no original error |
| Errors.ExternalUnavailable | src/core/base/error.base.ts:373-377 | "<service> is currently unavailable", type "unavailable", no original error |
| Errors.RateLimitExceeded | src/core/base/error.base.ts:394-405 | a 429 whose message gives the limit in decimal, the window and the resource, with the limit in the context |
| Errors.QuotaExceeded | src/core/base/error.base.ts:407-411 | "<type> quota exceeded: <limit>", type "quota" |
| Errors.FullErrorChain | src/core/base/error.base.ts:85-93 | the chain starts with "<name>: <message>" and is exactly that line when no original error is attached |
| Errors.ChainLines | src/core/base/error.base.ts:85-93 | without line breaks in names and messages, the chain is one line for the error and, exactly when a cause is attached, one "Caused by" line for it |
| Errors.NoBreakInLine | src/core/base/error.base.ts:86 | a chain line holds no line break when its name and message hold none |
| HttpFilter.Body | src/core/filters/http-exception.filter.ts:41-45 | the body holds status and message, and data exactly when given, and nothing else |
| HttpFilter.ZodMessage | src/core/filters/http-exception.filter.ts:36-39 | the validation message is never falsy: the response's own message when it is a truthy property of an object, 'Validation failed' otherwise and always for a non-object response |
| HttpFilter.HttpMessage | src/core/filters/http-exception.filter.ts:64-74 | the response object's own `message` when it has one, else the response when it is a string, else the exception's message |
| HttpFilter.Catch | src/core/filters/http-exception.filter.ts:26-87 | every exception gets a status word 'fail' or 'error': a validation failure is a 400 'fail' carrying the issues (or an empty list); an application error answers with its own status and only its code; an `HttpException` keeps its status and is 'error' exactly from 500 up; anything else is a 500 'error' with the fixed message |
| HttpFilter.AppErrorHidesDetails | src/core/filters/http-exception.filter.ts:48-57 | two application errors of the same class get the same response, whatever their messages, contexts or causes |
| HttpFilter.ServerAppErrorsAreFail | src/core/filters/http-exception.filter.ts:53-61 | a database failure answers 500 but with 'fail', where an `HttpException` with status 500 answers 'error' |
| HttpFilter.ExternalAppErrorIsFail | src/core/filters/http-exception.filter.ts:53-56 | an unavailable external service answers 502 with 'fail' |
| HttpFilter.InvalidCredentialsResponse | src/core/filters/http-exception.filter.ts:53-56 | a failed login answers 401 'fail' with the message "UNAUTHORIZED" |
| HttpFilter.MessageDefaults | src/core/filters/http-exception.filter.ts:36-74 | a validation failure without a truthy message says 'Validation failed'; an `HttpException` with a string response says that string, and one with an object without a message says its own message |
| ResponseInterceptor.EnvelopeMessage | src/core/interceptors/response.interceptor.ts:50-52 | the message is never empty: the handler's `@ResponseMessage` when it is set and not empty, 'Request successful' otherwise |
| ResponseInterceptor.EnvelopeFieldsWithMeta | src/core/interceptors/response.interceptor.ts:64-69 | with a truthy meta the envelope reads status 'success', the message, the data and that meta |
| ResponseInterceptor.EnvelopeFieldsWithoutMeta | src/core/interceptors/response.interceptor.ts:64-69 | without one it reads status 'success', the message and the data |
| ResponseInterceptor.EnvelopeKeys | src/core/interceptors/response.interceptor.ts:64-69 | the envelope's properties are status, message, data and, exactly when the meta is truthy, meta, in that order |
| ResponseInterceptor.Lifted | src/core/interceptors/response.interceptor.ts:56-62 | a paginated result gives its items as data and its meta; anything else is passed as data with no meta |
| ResponseInterceptor.Envelope | src/core/interceptors/response.interceptor.ts:46-72 | the envelope is an object with status 'success' and the message; for a paginated result its data are the items and it has meta exactly when the result's meta is truthy, that meta; any other result is the data, with no meta; no other property appears |
| ResponseInterceptor.PageEnvelope | src/core/interceptors/response.interceptor.ts:31-69 | a page `{ items, meta }` with an object as meta answers with the items as data and the same meta |
| ResponseInterceptor.NullMetaDropped | src/core/interceptors/response.interceptor.ts:59-68 | a page whose meta is null answers with the items and no meta |
| ResponseInterceptor.PlainDataPassesThrough | src/core/interceptors/response.interceptor.ts:31-67 | an array, a string and an object with items but no meta are passed through whole as data |
| ResponseInterceptor.EnvelopesDisjoint | src/core/interceptors/response.interceptor.ts:64-66 | a success envelope's status word is never that of an error response |
| Logging.Sanitize | src/core/logging/logger.logging.ts:266-283 | a falsy value or a non-object comes back as it is; an array or object keeps its length and, for an object, its keys in order |
| Logging.SanitizeKeepsKeys | src/core/logging/logger.logging.ts:266-283 | sanitizing keeps an object's keys, in order |
| Logging.SameKeys | src/core/logging/logger.logging.ts:269 | two property lists with the same key at every position have the same key list |
| Logging.SanitizedIsClean | src/core/logging/logger.logging.ts:261-286 | whatever the data, no property left anywhere in the result has a sensitive key unless its value is '[REDACTED]' |
| Logging.CleanIffFixed | src/core/logging/logger.logging.ts:266-283 | clean data is exactly the data sanitizing leaves unchanged |
| Logging.SanitizeIdempotent | src/core/logging/logger.logging.ts:261-286 | sanitizing twice is sanitizing once |
| Logging.RedactedIff | src/core/logging/logger.logging.ts:275-279 | a property comes out as '[REDACTED]' exactly when its key is sensitive or it already held that text |
| Logging.NoUpperNoMatch | src/core/logging/logger.logging.ts:270-272 | a field name with an upper-case letter never occurs in a lower-cased key |
| Logging.MissingCharNoMatch | src/core/logging/logger.logging.ts:271-272 | a field name holding a character the key lacks does not occur in it |
| Logging.CamelCaseFieldsNeverMatch | src/core/logging/logger.logging.ts:255-272 | as written, 'creditCard' and 'bankAccount' occur in no lower-cased key, whatever the key |
| Logging.CamelKeyNotSensitive | src/core/logging/logger.logging.ts:247-272 | as written, the keys 'creditCard' and 'bankAccount' are not sensitive |
| Logging.CreditCardLoggedInClear | src/core/logging/logger.logging.ts:247-286 | as written, a 'creditCard' property is logged as it was given |
| Logging.SanitizeOneProperty | src/core/logging/logger.logging.ts:266-283 | a one-property object is redacted when its key is sensitive and sanitized inside otherwise |
| Logging.ToLowerOfLower | src/core/logging/logger.logging.ts:270 | lower-casing leaves a string without upper-case letters as it is |
| Logging.FoldedCoversWritten | src/core/logging/logger.logging.ts:270-272 | the corrected key test redacts everything the written one does |
| Logging.FoldedMatchesListedName | src/core/logging/logger.logging.ts:247-272 | under the corrected test every listed name, in any case, is sensitive |
| Logging.CreditCardRedactedWhenFolded | src/core/logging/logger.logging.ts:247-286 | under the corrected test a 'creditCard' property is redacted |
| Logging.IndexKeysNeverSensitive | src/core/logging/logger.logging.ts:264-269 | an array index is never a sensitive key under either test |
| Logging.SanitizeTopLevel | src/core/logging/logger.logging.ts:261-286 | the loop over the copied top level gives exactly the sanitized value |
| Logging.PerformanceMetric | src/core/logging/logger.logging.ts:231-242 | the level is 'warn' exactly above 1000 ms and 'info' otherwise; `slow` is set exactly at 'warn'; the duration reads "<n>ms"; the data are sanitized |
| Logging.DevMeta | src/core/logging/logger.logging.ts:73-91 | the development format never shows password, token or secret, and shows every other property of the entry except timestamp, level, message and layer, as given |
| Logging.EntryDefaults | src/core/logging/logger.logging.ts:46-50 | the entry's service is the log data's own when truthy, else 'share-up-core'; its environment is NODE_ENV when set and not empty, else 'development' |
| Logging.JsonEntry | src/core/logging/logger.logging.ts:41-62 | the JSON entry holds no undefined property and no key twice |
| Logging.JsonEntryReads | src/core/logging/logger.logging.ts:46-60 | a defined property of the log data appears as given; a defined trace property the data does not override appears as traced; the service defaults to 'share-up-core' |
| Logging.EntryReadsKey | src/core/logging/logger.logging.ts:46-60 | the log data win over the trace context, which wins over the defaults |
| Logging.EntryDefaultService | src/core/logging/logger.logging.ts:48-53 | without a service in the data or the trace, the entry says 'share-up-core' |
| Trace.Header | src/core/logging/trace.logging.ts:104-114 | a header counts exactly when it was sent and is not empty, and then with its value |
| Trace.CreateFromHeaders | src/core/logging/trace.logging.ts:96-118 | the trace id is the `x-trace-id` header when sent and not empty, otherwise the generated id; each optional property holds its header exactly when that header is not empty; the ip comes from `x-forwarded-for` and only without it from `x-real-ip`, and is never empty |
| Trace.Patch | src/core/logging/trace.logging.ts:68-73 | an empty update changes nothing; a given operation replaces the current one and an omitted one keeps it; an omitted trace id is kept |
| Trace.PatchIdempotent | src/core/logging/trace.logging.ts:68-73 | applying the same update twice is applying it once |
| Trace.LoggingFieldsRead | src/core/logging/trace.logging.ts:134-141 | the logged properties carry the context's trace id, user, operation, method, path and ip, each once |
| Trace.LoggingFieldsKeys | src/core/logging/trace.logging.ts:134-141 | the logged properties are exactly those six |
| Trace.ContextForLogging | src/core/logging/trace.logging.ts:130-142 | without a context nothing is logged; with one, exactly traceId, userId, operation, requestMethod, requestPath and ip, each once and as in the context; the user agent never |
| Trace.HeadersReachLogEntry | src/core/logging/trace.logging.ts:96-142 | the trace id of a request, and a non-empty user id header, reach the JSON log entry when the log data do not set their own |
| Trace.EntryCarriesTrace | src/core/logging/logger.logging.ts:43-53 | a JSON log entry carries the context's trace id and user id unless the log data set their own |
| Trace.TraceContextManager.constructor | src/core/logging/trace.logging.ts:21 | a new store holds no context |
| Trace.TraceContextManager.GetContextForLogging | src/core/logging/trace.logging.ts:130-142 | the logged properties of the current context |
| Trace.TraceContextManager.UpdateContext | src/core/logging/trace.logging.ts:68-73 | without a context nothing happens; otherwise the updates are merged into the current one |
| Trace.TraceContextManager.WithTrace | src/core/logging/trace.logging.ts:148-179 | inside a context, a non-empty operation overwrites the current operation and the body runs in that context; without one the context is kept as it was; outside any context the body runs in a fresh context with the generated id and the operation or "<class>.<method>", and no context remains afterwards |
| Trace.WithTraceOperationNamed | src/core/logging/trace.logging.ts:157-161 | an operation set inside a context is the given non-empty name, and the trace id stays |
| ModuleGenerator.Capitalize | scripts/generate-module.ts:19 | a word keeps its length; its first character is upper-cased and the rest is kept |
| ModuleGenerator.PascalHasNoDash | scripts/generate-module.ts:16-21 | a Pascal-case name holds no '-' |
| ModuleGenerator.JoinNoChar | scripts/generate-module.ts:20 | joining parts that lack a character gives a string that lacks it |
| ModuleGenerator.JoinConcat | scripts/generate-module.ts:20 | joining two lists of words one after the other is joining each and concatenating |
| ModuleGenerator.JoinPlainStep | scripts/generate-module.ts:20 | joining with '' is the first word followed by the join of the rest |
| ModuleGenerator.PascalOfWordsConcat | scripts/generate-module.ts:18-20 | capitalizing and joining distributes over concatenation of word lists |
| ModuleGenerator.PascalSplitsAtDash | scripts/generate-module.ts:16-21 | the Pascal case of `a-b` is that of `a` followed by that of `b` |
| ModuleGenerator.PascalOfWord | scripts/generate-module.ts:16-21 | a name without '-' is one word: its Pascal case is it, capitalized |
| ModuleGenerator.WithoutDashes | scripts/generate-module.ts:18 | removing '-' leaves no '-' and never lengthens |
| ModuleGenerator.WithoutDashesConcat | scripts/generate-module.ts:18 | removing '-' distributes over concatenation |
| ModuleGenerator.WithoutDashesNoDash | scripts/generate-module.ts:18 | a string without '-' is left as it is |
| ModuleGenerator.ToLowerConcat | scripts/generate-module.ts:24 | lower-casing distributes over concatenation |
| ModuleGenerator.LowerCapitalize | scripts/generate-module.ts:19 | capitalizing a word does not change it once lower-cased |
| ModuleGenerator.DashIndex | scripts/generate-module.ts:18 | the position of the first '-', or the length when there is none |
| ModuleGenerator.PascalAtDash | scripts/generate-module.ts:16-21 | at the first '-', the Pascal case is the first word capitalized followed by the Pascal case of the rest |
| ModuleGenerator.WithoutDashesCons | scripts/generate-module.ts:18 | removing '-' from a string drops its first character exactly when it is '-' |
| ModuleGenerator.WithoutDashesAtDash | scripts/generate-module.ts:18 | removing '-' around the first '-' keeps the part before it |
| ModuleGenerator.WithoutDashesAroundDash | scripts/generate-module.ts:18 | the same, for a first part given without '-' |
| ModuleGenerator.PascalKeepsLetters | scripts/generate-module.ts:16-21 | the Pascal case holds the name's characters other than '-', in order, up to case |
| ModuleGenerator.Hyphenate | scripts/generate-module.ts:24 | the replacement never shortens the name |
| ModuleGenerator.HyphenateAtBoundaries | scripts/generate-module.ts:24 | the left-to-right regular-expression scan puts '-' exactly where a lower-case letter meets an upper-case one, and nowhere else |
| ModuleGenerator.KebabCase | scripts/generate-module.ts:23-25 | a kebab-case name holds no upper-case letter |
| ModuleGenerator.KebabOfLower | scripts/generate-module.ts:23-25 | a name without upper-case letters, such as one already in kebab case, is left as it is |
| ModuleGenerator.NoBoundaryHyphenate | scripts/generate-module.ts:24 | without upper-case letters the replacement changes nothing |
| ModuleGenerator.KebabAddsOnlyDashes | scripts/generate-module.ts:23-25 | kebab case only adds '-' and lower-cases: without dashes it is the name without dashes, lowered |
| ModuleGenerator.DashesOfBoundaries | scripts/generate-module.ts:24 | the dashes put at boundaries are the only characters added |
| ModuleGenerator.LowerWithoutDashes | scripts/generate-module.ts:24 | lower-casing and removing '-' commute |
| ModuleGenerator.ModuleName | scripts/generate-module.ts:667-674 | an empty answer gives no names; otherwise the kebab name of the input and the Pascal name of that kebab name |
| ModuleGenerator.ModuleNameKeepsLetters | scripts/generate-module.ts:667-674 | both names keep the input's letters: the kebab name without dashes is the input without dashes, lowered; the Pascal name has no '-' and, lowered, is the same |
| ModuleGenerator.NoUpperWithoutDashes | scripts/generate-module.ts:24 | removing '-' adds no upper-case letter |
| ModuleGenerator.HyphenateAfterPlain | scripts/generate-module.ts:24 | a prefix without upper-case letters, followed by a part not starting with one, passes through unchanged |
| ModuleGenerator.HyphenateBoundary | scripts/generate-module.ts:24 | a lower-case letter followed by an upper-case one gets a '-' between them |
| ModuleGenerator.HyphenateTwoWords | scripts/generate-module.ts:24 | two lower-case words joined at one boundary get exactly one '-' |
| ModuleGenerator.HyphenateExample | scripts/generate-module.ts:24 | 'driveAccount' becomes 'drive-Account' |
| ModuleGenerator.KebabExample | scripts/generate-module.ts:23-25 | 'driveAccount' becomes 'drive-account' |
| ModuleGenerator.CapitalizeExample | scripts/generate-module.ts:19 | a word starting with a lower-case letter gets that letter upper-cased |
| ModuleGenerator.PascalExample | scripts/generate-module.ts:16-21 | 'drive-account' becomes 'DriveAccount' |
| ModuleGenerator.DriveAccountExample | scripts/generate-module.ts:667-674 | the answer 'driveAccount' gives the names 'drive-account' and 'DriveAccount' |
| Strings.ToLower | src/transfer-file/infrastructure/workers/transfer-folder.processor.ts:176 | `toLowerCase`: same length, each ASCII capital lowered and every other character kept |
| Strings.Trim | src/transfer-file/infrastructure/workers/transfer-folder.processor.ts:138 | `trim()`: the result neither starts nor ends with white space and is the part of the input after its leading white space |
| Strings.TrimEmptyIffAllSpace | src/transfer-file/infrastructure/workers/transfer-folder.processor.ts:201 | a string trims to empty exactly when it is all white space |
| Strings.Split | src/core/base/error.base.ts:89 | `split` gives at least one piece and no piece holds the separator |
| Strings.JoinSplit | src/transfer-file/infrastructure/workers/transfer-file.processor.ts:109-112 | splitting a path at a separator and joining the pieces with it gives the path back |
| Strings.SubstringIndex | src/transfer-file/infrastructure/workers/transfer-file.processor.ts:152 | `indexOf`: -1 exactly when the pattern occurs nowhere; otherwise its first occurrence |
| Strings.RemoveLeading | src/transfer-file/infrastructure/workers/transfer-file.processor.ts:152 | `replace(pat, '')` on a string starting with the pattern removes that prefix |
| Strings.RemoveFromDigits | src/transfer-file/infrastructure/workers/transfer-file.processor.ts:152 | `replace(pat, '')` leaves a string of digits alone when the pattern holds a non-digit |
| Strings.ParseNatToString | src/drive-account/presentation/dto/list-drive-account.query.dto.ts:49-50 | the decimal text of a number reads back as that number |
| NodePath.Normalize | src/transfer-file/infrastructure/workers/transfer-file.processor.ts:108-112 | `path.normalize` never gives an empty path and keeps a leading '/' |
| NodePath.JoinChild | src/transfer-file/infrastructure/workers/transfer-file.processor.ts:112 | `path.join(d, x)` of a normal absolute directory and a plain name is the two joined by one '/', itself a normal directory path |
| NodePath.DirnameOfChild | src/transfer-file/infrastructure/workers/transfer-file.processor.ts:109 | `path.dirname` of a directory's child is the directory |
| NodePath.BasenameOfChild | src/transfer-file/infrastructure/workers/transfer-file.processor.ts:150 | `path.basename(p, suffix)` of a directory's child is the child's name, with the suffix cut off when the name is longer and ends with it |
| NodePath.BasenameOfLastSegment | src/transfer-file/infrastructure/workers/transfer-file.processor.ts:150 | the same for any path not ending in '/': its last segment, less the suffix |

## Left out

- `src/core/base/error-codes.ts` is not part of this model. An error's code is the name of its table member, and its status is the number that name stands for in section 15 of RFC 9110 (429 in section 4 of RFC 6585).
- Error timestamps and stack traces, `toJSON`, `toAPIResponse` and `getFullStackTrace`: formatting over values that come from the runtime.
- Numbers are integers throughout. `getUsagePercentage` and every other floating-point computation are left out. Storage figures that are `bigint` in the source are unbounded integers.
- `DriveAccountDto.CoerceNumber`: reads only optionally signed decimal integers. Other numerals JavaScript's `Number` accepts (fractions, exponents, hexadecimal, `Infinity`) are not modelled.
- The zod `email()` and `cuid()` built-ins are left out. The create-account email rule is the regular expression written in the repository.
- `ListDriveAccountQuerySchema`, the first list schema, is never used by an endpoint and is not modelled. Like the schema in use, it has no lower bound on page or limit. The bounds of `DriveAccountDto.ParseListQueryBounded` come from the listing itself: a page below 1 makes the skip `(page - 1) * limit` negative, which the store refuses.
- `updateAuthTokens` of the drive-account repository, `updateRefreshToken` and `findByIdWithRefreshToken` of the user repository, and `GetUserProfileUseCase` are outside the modelled core.
- Trace propagation through `AsyncLocalStorage` is left out: its `run`/`enterWith`, the getters, and the work run inside the decorated method. The context store is one field of `Trace.TraceContextManager`.
- `generateTraceId` and `generateCorrelationId` are random, so the generated id is a parameter.
- `Trace.Patch`: an update is a set of given properties. An explicit `undefined` that `Object.assign` would copy over a property cannot be expressed.
- Winston transports, colours, timestamps and the JSON serialisation of entries are left out.
- The batch logger (`addToBatch`, `flushBatch`) is timer-driven and left out, as is `createTimer`.
- The level wrappers (`info`, `warn`, `error`, `debug`, `logUseCase`, `logDomain`, `logInfrastructure`) and `NestLoggerAdapter` only forward to the logger and are left out.
- `Logging.Sanitize`: works on values. It does not show that nested objects are mutated in place and shared with the caller, and it does not cover cyclic objects.
- `Crawler.StripParams`: the query is a sequence of decoded name/value pairs. `URLSearchParams` re-serialisation (percent-encoding, `+` for spaces) is not modelled, so the captured URL text may differ from the source's in encoding.
- `RepositoryBase.SortBy`: text columns are ordered by code point, not by the database's collation. Records with equal sort keys stay in table order, which the database does not promise.
- `DriveAccountDto.ValidateCreate` and `DriveAccountDto.ValidateUpdate`: a length bound counts code points, while zod's `max(255)` and `min(1)` count UTF-16 units. A name with characters outside the Basic Multilingual Plane can pass here and fail in the source.
- Case mapping (`toLowerCase`, and the upper-casing in the module generator) covers ASCII letters only.
- The exception filter's console logging is left out.
- The module generator's prompting, templates and file writing are left out. Only the name handling is modelled.
- Browser mechanics are replaced by what the page shows: Playwright launch, navigation, waits, clicks, scrolling and the login check. The login check is a boolean of the run.
- curl, ffmpeg and rclone command lines and their execution are replaced by their outcomes. The downloaded size is an input.
- File-system calls are modelled only as the set of existing paths (`LocalFs.LocalDisk`): `existsSync`, `unlinkSync`, `renameSync`, `stat`.
- BullMQ runtime behaviour is left out: worker concurrency, lock duration, `job.remove`, worker events and Redis. A queue is the sequence of jobs added to it.
- In the workers, a failing `update` after the first write would escape the catch block differently. The store's `update` on a record that exists is total here, so that path cannot arise.
- Concurrency between jobs is left out. Each worker run is one sequential method over the store.

## Findings

| source | as written | input that shows it | evidently intended | confidence | as-written member | corrected member |
|---|---|---|---|---|---|---|
| src/transfer-file/infrastructure/workers/transfer-folder.processor.ts:36-66 | the worker keeps the folder it loaded for every write, and the entity's dirty check compares against the state loaded then; setting the status back to its loaded value writes nothing | a 'scan-folder' job for a folder already COMPLETED: the SCANNING write is stored, the final COMPLETED equals the loaded status and is not written, so the folder stays SCANNING | the folder ends COMPLETED after a successful scan, whatever its status before | not executed | FolderProcessor.RescannedFolderStaysScanning | FolderProcessor.ProcessFolderRefreshed |
| src/transfer-file/infrastructure/workers/transfer-file.processor.ts:42-70 | the file loaded first is kept for every write, so a status that returns to its loaded value is not written | a duplicate 'process-file' job for a file already COMPLETED, with download and upload succeeding: PROCESSING is stored, COMPLETED is dropped, the file stays PROCESSING (a FAILED file whose retry fails again also stays PROCESSING) | the file ends COMPLETED after a successful transfer | not executed | FileProcessor.DuplicateJobStaysProcessing | FileProcessor.ProcessFileCorrected |
| src/transfer-file/infrastructure/workers/transfer-file.processor.ts:147-169 | clean-up derives the track names from the base name of the path it receives, which after the rename is the file's own name | a file named "talk.mp4" downloaded as output_<ts>.mp4: clean-up looks for video_talk.mp4 and audio_talk.mp4. When the crawler's own removal of the tracks after the merge failed, video_<ts>.mp4 or audio_<ts>.mp4 stays on disk | the tracks of this download are removed | not executed | FileProcessor.RenamedCleanupMissesTracks | FileProcessor.CorrectedCleanupTargets |
| src/drive-account/presentation/dto/list-drive-account.query.dto.ts:49-50 | the schema in use bounds only limit above; page and limit have no lower bound | page "0" with the default limit 10: accepted, and the listing asks the store to skip -10 records, which it refuses with an internal error rather than a validation error | page at least 1 and limit between 1 and 100, so that the skip `(page - 1) * limit` is never negative and a bad page is reported as a validation error | not executed | DriveAccountUseCases.PageZeroFails | DriveAccountDto.ParseListQueryBounded |
| src/core/logging/logger.logging.ts:255-272 | each key is lower-cased and then searched for the listed names, two of which are written in camel case | a log entry `{ creditCard: "4111" }`: the lower-cased key contains no listed name, so the number is logged as it is | every listed name is redacted, whatever the key's case | not executed | Logging.CreditCardLoggedInClear | Logging.CreditCardRedactedWhenFolded |
