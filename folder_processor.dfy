/** `TransferFolderProcessor.process`, the worker of the 'folder-queue':
    loads the folder, marks it SCANNING, scans its page, renames it,
    inserts one PENDING file per video and marks it COMPLETED; on failure
    it marks the folder FAILED and fails the job.

    The worker keeps the entity it loaded for every later write, and the
    entity's dirty check still measures against the state loaded then, so
    a property set back to its loaded value is not written. `StoredAfter`
    models that; `RefreshedAfter` and `ProcessFolderRefreshed` are the
    worker continuing with the entity each `update` returns. */
module FolderProcessor {
  import opened Wrappers
  import opened EntityBase
  import opened RepositoryBase
  import opened TransferRepositories
  import opened FolderScan
  import TransferFolder
  import TransferFile

  type FolderOp = TransferFolder.FolderOp

  /** The mutators a successful scan applies, in order; the rename only
      when the scan found a non-empty name. */
  function SuccessOps(name: string): (ops: seq<FolderOp>)
    ensures 2 <= |ops| <= 3
    ensures ops[0] == TransferFolder.MarkScanning && ops[|ops| - 1] == TransferFolder.MarkCompleted
    ensures name != "" <==> TransferFolder.Rename(name) in ops
  {
    [TransferFolder.MarkScanning] + (if name != "" then [TransferFolder.Rename(name)] else []) +
    [TransferFolder.MarkCompleted]
  }

  /** How the folder record loads once an entity loaded as `base` has had
      the mutators `ops` applied one at a time, written back after each
      one against the snapshot taken at load. */
  function StoredAfter(base: FolderProps, ops: seq<FolderOp>): FolderProps
    requires base.path.None? && base.parentId.None?
  {
    if |ops| == 0 then base
    else FolderWritten(StoredAfter(base, ops[..|ops| - 1]), base, TransferFolder.Run(base, ops))
  }

  /** The same, with each write measured against the state the previous
      write left: the entity is replaced by the one `update` returns. */
  function RefreshedAfter(base: FolderProps, ops: seq<FolderOp>): FolderProps
    requires base.path.None? && base.parentId.None?
  {
    if |ops| == 0 then base
    else
      var prev := RefreshedAfter(base, ops[..|ops| - 1]);
      FolderWritten(prev, prev, TransferFolder.Step(prev, ops[|ops| - 1]))
  }

  /** With the snapshot refreshed, the record always holds the entity's
      state: it loads as the run of all the mutators. */
  lemma {:induction false} RefreshedTracksRun(base: FolderProps, ops: seq<FolderOp>)
    requires base.path.None? && base.parentId.None?
    ensures RefreshedAfter(base, ops) == TransferFolder.Run(base, ops)
    decreases |ops|
  {
    if |ops| > 0 {
      var init := ops[..|ops| - 1];
      RefreshedTracksRun(base, init);
      assert ops == init + [ops[|ops| - 1]];
      TransferFolder.RunSnoc(base, init, ops[|ops| - 1]);
      TransferFolder.RunKeepsIdentity(base, init);
    }
  }

  /** With the refreshed snapshot a successful scan always leaves the
      folder COMPLETED, carrying the scanned name when there is one. */
  lemma RefreshedScanCompletes(base: FolderProps, name: string)
    requires base.path.None? && base.parentId.None?
    ensures RefreshedAfter(base, SuccessOps(name)).status == TransferFolder.COMPLETED
    ensures RefreshedAfter(base, SuccessOps(name)).name == if name != "" then name else base.name
  {
    var ops := SuccessOps(name);
    RefreshedTracksRun(base, ops);
    var s1 := TransferFolder.Step(base, TransferFolder.MarkScanning);
    assert TransferFolder.Run(base, ops) == TransferFolder.Run(s1, ops[1..]);
    if name != "" {
      var s2 := TransferFolder.Step(s1, TransferFolder.Rename(name));
      assert TransferFolder.Run(s1, ops[1..]) == TransferFolder.Run(s2, ops[2..]);
      assert TransferFolder.Run(s2, ops[2..]) == TransferFolder.Run(TransferFolder.Step(s2, TransferFolder.MarkCompleted), []);
    } else {
      assert TransferFolder.Run(s1, ops[1..]) == TransferFolder.Run(TransferFolder.Step(s1, TransferFolder.MarkCompleted), []);
    }
  }

  /** One more write in the as-written chain. */
  lemma StoredAfterSnoc(base: FolderProps, ops: seq<FolderOp>, op: FolderOp)
    requires base.path.None? && base.parentId.None?
    ensures StoredAfter(base, ops + [op]) ==
      FolderWritten(StoredAfter(base, ops), base, TransferFolder.Run(base, ops + [op]))
  {
    assert (ops + [op])[..|ops|] == ops;
  }

  /** As written, a folder that is COMPLETED when it is scanned again
      ends SCANNING: COMPLETED is its loaded status, so the final
      `markAsCompleted` is not written over the SCANNING written first.
      Any other folder ends COMPLETED. */
  lemma StaleScanStatus(base: FolderProps, name: string)
    requires base.path.None? && base.parentId.None?
    ensures StoredAfter(base, SuccessOps(name)).status ==
      if base.status == TransferFolder.COMPLETED then TransferFolder.SCANNING else TransferFolder.COMPLETED
  {
    var scan: seq<FolderOp> := [TransferFolder.MarkScanning];
    StoredAfterSnoc(base, [], TransferFolder.MarkScanning);
    TransferFolder.RunSnoc(base, [], TransferFolder.MarkScanning);
    assert [] + scan == scan;
    assert StoredAfter(base, scan).status == TransferFolder.SCANNING;
    var mid := if name != "" then scan + [TransferFolder.Rename(name)] else scan;
    if name != "" {
      StoredAfterSnoc(base, scan, TransferFolder.Rename(name));
      TransferFolder.RunSnoc(base, scan, TransferFolder.Rename(name));
    }
    assert StoredAfter(base, mid).status == TransferFolder.SCANNING;
    assert TransferFolder.Run(base, mid).status == TransferFolder.SCANNING;
    assert SuccessOps(name) == mid + [TransferFolder.MarkCompleted];
    StoredAfterSnoc(base, mid, TransferFolder.MarkCompleted);
    TransferFolder.RunSnoc(base, mid, TransferFolder.MarkCompleted);
  }

  /** The concrete case: a COMPLETED folder scanned again. */
  lemma RescannedFolderStaysScanning(base: FolderProps)
    requires base.path.None? && base.parentId.None? && base.status == TransferFolder.COMPLETED
    ensures StoredAfter(base, SuccessOps("Videos")).status == TransferFolder.SCANNING
    ensures RefreshedAfter(base, SuccessOps("Videos")).status == TransferFolder.COMPLETED
  {
    StaleScanStatus(base, "Videos");
    RefreshedScanCompletes(base, "Videos");
  }

  /** The files a scan inserts: one new PENDING file per video. */
  function NewFiles(folderId: string, videos: seq<VideoLink>, now: int): (fs: seq<FileProps>)
    ensures |fs| == |videos|
    ensures forall i :: 0 <= i < |videos| ==>
      fs[i] == TransferFile.NewFile(folderId, videos[i].url, videos[i].name, now)
  {
    seq(|videos|, i requires 0 <= i < |videos| => TransferFile.NewFile(folderId, videos[i].url, videos[i].name, now))
  }

  /** The folder record with `id` loaded, when there is one. */
  function LoadFolder(table: Table, id: string): Option<FolderProps>
    reads table
  {
    match table.FindUnique(id)
    case Some(rec) => Some(FolderFromRecord(rec))
    case None => None
  }

  /** `folderRepo.update(folder)` for a folder whose record exists, with
      the record's new load in terms of the entity's snapshot `base`: a
      clean folder comes back as it is, a dirty one reloaded. */
  method WriteFolder(folders: FolderRepository, folder: TransferFolder.FolderEntity, ghost base: FolderProps)
    returns (saved: TransferFolder.FolderEntity)
    requires folders.table.Valid() && folders.table.FindUnique(folder.id).Some?
    requires folder.tracker.original == Some(TransferFolder.StateOf(base))
    modifies folders.table
    ensures folders.table.Valid() && folders.table.FindUnique(folder.id).Some?
    ensures LoadFolder(folders.table, folder.id) ==
      Some(FolderWritten(old(LoadFolder(folders.table, folder.id)).value, base, folder.Props()))
    ensures saved == folder ==> folders.table.records == old(folders.table.records)
    ensures saved != folder ==>
      fresh(saved) && saved.Props() == LoadFolder(folders.table, folder.id).value &&
      saved.tracker.original == Some(TransferFolder.StateOf(saved.Props()))
  {
    ghost var rec := folders.table.FindUnique(folder.id).value;
    var r := folders.Update(folder);
    FolderUpdateLoads(rec, base, folder.Props());
    saved := r.value;
  }

  /** What the scan inserted: `files` follow the records that were there,
      each loading as the new file it was made from, with its new id. */
  ghost predicate Inserted(before: seq<Record>, after: seq<Record>, files: seq<FileProps>) {
    |after| == |before| + |files| && after[..|before|] == before &&
    forall i :: 0 <= i < |files| ==> FileFromRecord(after[|before| + i]) == files[i].(id := after[|before| + i].id)
  }

  /** `fileRepo.createMany` of the new files of a scan. */
  method InsertFiles(files: FileRepository, folderId: string, videos: seq<VideoLink>, now: int)
    requires files.table.Valid()
    modifies files.table
    ensures files.table.Valid()
    ensures Inserted(old(files.table.records), files.table.records, NewFiles(folderId, videos, now))
  {
    var created := files.CreateMany(NewFiles(folderId, videos, now));
  }

  /** The error handler of `process`: the folder is loaded afresh and,
      when it exists, marked FAILED and written back. */
  method MarkFailed(folders: FolderRepository, folderId: string)
    requires folders.table.Valid()
    modifies folders.table
    ensures folders.table.Valid()
    ensures old(LoadFolder(folders.table, folderId)).None? ==> folders.table.records == old(folders.table.records)
    ensures old(LoadFolder(folders.table, folderId)).Some? ==>
      LoadFolder(folders.table, folderId) ==
        Some(old(LoadFolder(folders.table, folderId)).value.(status := TransferFolder.FAILED))
  {
    var folder := folders.FindById(folderId);
    if folder.Some? {
      folder.value.MarkAsFailed();
      var saved := WriteFolder(folders, folder.value, old(LoadFolder(folders.table, folderId)).value);
    }
  }

  /** `process` of a 'scan-folder' job for `folderId`. The scan's inputs
      are the session check and what the job's folder URL shows; `now` is
      the clock reading for the new files. A missing folder fails the job
      with nothing written. A failed scan leaves the folder FAILED and
      fails the job with the scan's message. A successful one inserts the
      new files and leaves the folder as `StoredAfter` says. */
  method ProcessFolder(folders: FolderRepository, files: FileRepository, folderId: string,
                       sessionValid: bool, page: Result<Page>, now: int) returns (r: Result<()>)
    requires folders.table.Valid() && files.table.Valid() && folders.table != files.table
    modifies folders.table, files.table
    ensures folders.table.Valid() && files.table.Valid()
    ensures old(LoadFolder(folders.table, folderId)).None? ==>
      r == Err("Folder " + folderId + " not found") &&
      folders.table.records == old(folders.table.records) && files.table.records == old(files.table.records)
    ensures old(LoadFolder(folders.table, folderId)).Some? && Scan(sessionValid, page).Err? ==>
      r == Err(Scan(sessionValid, page).message) && files.table.records == old(files.table.records) &&
      LoadFolder(folders.table, folderId) ==
        Some(old(LoadFolder(folders.table, folderId)).value.(status := TransferFolder.FAILED))
    ensures old(LoadFolder(folders.table, folderId)).Some? && Scan(sessionValid, page).Ok? ==>
      var res := Scan(sessionValid, page).value;
      r == Ok(()) &&
      Inserted(old(files.table.records), files.table.records, NewFiles(folderId, res.videos, now)) &&
      LoadFolder(folders.table, folderId) ==
        Some(StoredAfter(old(LoadFolder(folders.table, folderId)).value, SuccessOps(res.folderName)))
  {
    var found := folders.FindById(folderId);
    if found.None? {
      // The handler's second lookup finds nothing either; the error is rethrown.
      return Err("Folder " + folderId + " not found");
    }
    var folder := found.value;
    r := ProcessLoaded(folders, files, folder, folder.Props(), sessionValid, page, now);
  }

  /** `process` once the folder is loaded: mark it SCANNING, scan, and
      either mark it FAILED or complete the scan. */
  method ProcessLoaded(folders: FolderRepository, files: FileRepository, folder: TransferFolder.FolderEntity,
                       ghost p0: FolderProps, sessionValid: bool, page: Result<Page>, now: int) returns (r: Result<()>)
    requires folders.table.Valid() && files.table.Valid() && folders.table != files.table
    requires p0.path.None? && p0.parentId.None? && p0.id == folder.id && folder.Props() == p0
    requires folder.tracker.original == Some(TransferFolder.StateOf(p0))
    requires LoadFolder(folders.table, folder.id) == Some(p0)
    modifies folders.table, files.table, folder
    ensures folders.table.Valid() && files.table.Valid()
    ensures Scan(sessionValid, page).Err? ==>
      r == Err(Scan(sessionValid, page).message) && files.table.records == old(files.table.records) &&
      LoadFolder(folders.table, folder.id) == Some(p0.(status := TransferFolder.FAILED))
    ensures Scan(sessionValid, page).Ok? ==>
      var res := Scan(sessionValid, page).value;
      r == Ok(()) &&
      Inserted(old(files.table.records), files.table.records, NewFiles(folder.id, res.videos, now)) &&
      LoadFolder(folders.table, folder.id) == Some(StoredAfter(p0, SuccessOps(res.folderName)))
  {
    SuccessSteps(p0, Err(""));
    folder.MarkAsScanning();
    var saved := WriteFolder(folders, folder, p0);
    assert LoadFolder(folders.table, folder.id) == Some(StoredAfter(p0, [TransferFolder.MarkScanning]));

    var scan := ScanFolderForVideos(sessionValid, page);
    if scan.Err? {
      assert LoadFolder(folders.table, folder.id) == Some(p0.(status := TransferFolder.SCANNING));
      MarkFailed(folders, folder.id);
      return Err(scan.message);
    }
    CompleteScan(folders, files, folder, p0, scan.value, now);
    r := Ok(());
  }

  /** The rest of `process` once the scan has succeeded: rename, insert
      the files, mark COMPLETED, each mutator written back with the
      snapshot taken at load. */
  method CompleteScan(folders: FolderRepository, files: FileRepository, folder: TransferFolder.FolderEntity,
                      ghost p0: FolderProps, result: ScanResult, now: int)
    requires folders.table.Valid() && files.table.Valid() && folders.table != files.table
    requires p0.path.None? && p0.parentId.None? && p0.id == folder.id
    requires folder.tracker.original == Some(TransferFolder.StateOf(p0))
    requires folder.Props() == TransferFolder.Run(p0, [TransferFolder.MarkScanning])
    requires LoadFolder(folders.table, folder.id) == Some(StoredAfter(p0, [TransferFolder.MarkScanning]))
    modifies folders.table, files.table, folder
    ensures folders.table.Valid() && files.table.Valid()
    ensures Inserted(old(files.table.records), files.table.records, NewFiles(folder.id, result.videos, now))
    ensures LoadFolder(folders.table, folder.id) == Some(StoredAfter(p0, SuccessOps(result.folderName)))
  {
    SuccessSteps(p0, Ok(result));
    var saved;
    if result.folderName != "" {
      folder.UpdateName(result.folderName);
      saved := WriteFolder(folders, folder, p0);
    }
    InsertFiles(files, folder.id, result.videos, now);
    folder.MarkAsCompleted();
    saved := WriteFolder(folders, folder, p0);
  }

  /** The mutators of a successful scan before `markAsCompleted`. */
  function BeforeCompletion(name: string): seq<FolderOp> {
    if name != "" then [TransferFolder.MarkScanning, TransferFolder.Rename(name)] else [TransferFolder.MarkScanning]
  }

  /** The runs and writes of `process`, step by step. */
  lemma SuccessSteps(p0: FolderProps, scan: Result<ScanResult>)
    requires p0.path.None? && p0.parentId.None?
    ensures var s1 := TransferFolder.Step(p0, TransferFolder.MarkScanning);
      TransferFolder.Run(p0, [TransferFolder.MarkScanning]) == s1 &&
      StoredAfter(p0, [TransferFolder.MarkScanning]) == FolderWritten(p0, p0, s1)
    ensures scan.Ok? && scan.value.folderName != "" ==>
      var n := scan.value.folderName;
      var s2 := TransferFolder.Step(TransferFolder.Step(p0, TransferFolder.MarkScanning), TransferFolder.Rename(n));
      [TransferFolder.MarkScanning] + [TransferFolder.Rename(n)] == BeforeCompletion(n) &&
      TransferFolder.Run(p0, BeforeCompletion(n)) == s2 &&
      StoredAfter(p0, BeforeCompletion(n)) ==
        FolderWritten(StoredAfter(p0, [TransferFolder.MarkScanning]), p0, s2)
    ensures scan.Ok? ==>
      var n := scan.value.folderName;
      var ops := BeforeCompletion(n);
      var s3 := TransferFolder.Step(TransferFolder.Run(p0, ops), TransferFolder.MarkCompleted);
      SuccessOps(n) == ops + [TransferFolder.MarkCompleted] &&
      TransferFolder.Run(p0, SuccessOps(n)) == s3 &&
      StoredAfter(p0, SuccessOps(n)) == FolderWritten(StoredAfter(p0, ops), p0, s3)
  {
    var ms: seq<FolderOp> := [TransferFolder.MarkScanning];
    StoredAfterSnoc(p0, [], TransferFolder.MarkScanning);
    TransferFolder.RunSnoc(p0, [], TransferFolder.MarkScanning);
    assert [] + ms == ms;
    if scan.Ok? {
      var n := scan.value.folderName;
      if n != "" {
        StoredAfterSnoc(p0, ms, TransferFolder.Rename(n));
        TransferFolder.RunSnoc(p0, ms, TransferFolder.Rename(n));
      }
      var ops := BeforeCompletion(n);
      StoredAfterSnoc(p0, ops, TransferFolder.MarkCompleted);
      TransferFolder.RunSnoc(p0, ops, TransferFolder.MarkCompleted);
    }
  }

  // ----------------------------------------------- with refreshed snapshots

  /** `folderRepo.update(folder)` for a folder loaded as `loaded` whose
      snapshot is that load: afterwards the record loads as the folder
      now is, and the entity returned has that state as its snapshot. */
  method RefreshingWrite(folders: FolderRepository, folder: TransferFolder.FolderEntity, ghost loaded: FolderProps)
    returns (saved: TransferFolder.FolderEntity)
    requires folders.table.Valid() && LoadFolder(folders.table, folder.id) == Some(loaded)
    requires folder.tracker.original == Some(TransferFolder.StateOf(loaded))
    requires folder.path.None? && folder.parentId.None?
    modifies folders.table
    ensures folders.table.Valid()
    ensures LoadFolder(folders.table, folder.id) == Some(folder.Props())
    ensures saved == folder || fresh(saved)
    ensures saved.Props() == folder.Props()
    ensures saved.tracker.original == Some(TransferFolder.StateOf(saved.Props()))
  {
    saved := WriteFolder(folders, folder, loaded);
  }

  /** `process` continuing, after each `update`, with the entity it
      returns: every write is measured against what the record holds, so
      a successful scan leaves the record holding the run of all the
      mutators, COMPLETED. Failures are as in `ProcessFolder`. */
  method ProcessFolderRefreshed(folders: FolderRepository, files: FileRepository, folderId: string,
                                sessionValid: bool, page: Result<Page>, now: int) returns (r: Result<()>)
    requires folders.table.Valid() && files.table.Valid() && folders.table != files.table
    modifies folders.table, files.table
    ensures folders.table.Valid() && files.table.Valid()
    ensures old(LoadFolder(folders.table, folderId)).None? ==>
      r == Err("Folder " + folderId + " not found") &&
      folders.table.records == old(folders.table.records) && files.table.records == old(files.table.records)
    ensures old(LoadFolder(folders.table, folderId)).Some? && Scan(sessionValid, page).Err? ==>
      r == Err(Scan(sessionValid, page).message) && files.table.records == old(files.table.records) &&
      LoadFolder(folders.table, folderId) ==
        Some(old(LoadFolder(folders.table, folderId)).value.(status := TransferFolder.FAILED))
    ensures old(LoadFolder(folders.table, folderId)).Some? && Scan(sessionValid, page).Ok? ==>
      var res := Scan(sessionValid, page).value;
      r == Ok(()) &&
      Inserted(old(files.table.records), files.table.records, NewFiles(folderId, res.videos, now)) &&
      LoadFolder(folders.table, folderId) ==
        Some(TransferFolder.Run(old(LoadFolder(folders.table, folderId)).value, SuccessOps(res.folderName))) &&
      LoadFolder(folders.table, folderId).value.status == TransferFolder.COMPLETED
  {
    var found := folders.FindById(folderId);
    if found.None? {
      return Err("Folder " + folderId + " not found");
    }
    var folder := found.value;
    ghost var p0 := folder.Props();
    SuccessSteps(p0, Err(""));
    folder.MarkAsScanning();
    folder := RefreshingWrite(folders, folder, p0);

    var scan := ScanFolderForVideos(sessionValid, page);
    if scan.Err? {
      MarkFailed(folders, folderId);
      return Err(scan.message);
    }
    CompleteScanRefreshed(folders, files, folder, p0, scan.value, now);
    r := Ok(());
  }

  /** The rest of `ProcessFolderRefreshed` once the scan has succeeded. */
  method CompleteScanRefreshed(folders: FolderRepository, files: FileRepository, folder: TransferFolder.FolderEntity,
                               ghost p0: FolderProps, result: ScanResult, now: int)
    requires folders.table.Valid() && files.table.Valid() && folders.table != files.table
    requires p0.path.None? && p0.parentId.None?
    requires folder.Props() == TransferFolder.Run(p0, [TransferFolder.MarkScanning])
    requires folder.tracker.original == Some(TransferFolder.StateOf(folder.Props()))
    requires LoadFolder(folders.table, folder.id) == Some(folder.Props())
    modifies folders.table, files.table, folder
    ensures folders.table.Valid() && files.table.Valid()
    ensures Inserted(old(files.table.records), files.table.records, NewFiles(folder.id, result.videos, now))
    ensures LoadFolder(folders.table, folder.id) == Some(TransferFolder.Run(p0, SuccessOps(result.folderName)))
    ensures LoadFolder(folders.table, folder.id).value.status == TransferFolder.COMPLETED
  {
    SuccessSteps(p0, Ok(result));
    RefreshedScanCompletes(p0, result.folderName);
    RefreshedTracksRun(p0, SuccessOps(result.folderName));
    var current := RenameRefreshed(folders, folder, p0, result.folderName);
    InsertFiles(files, folder.id, result.videos, now);
    current := CompleteRefreshed(folders, current, TransferFolder.Run(p0, BeforeCompletion(result.folderName)));
  }

  /** `markAsCompleted` and the write of `ProcessFolderRefreshed`, on the
      entity the previous `update` returned. */
  method CompleteRefreshed(folders: FolderRepository, current: TransferFolder.FolderEntity, ghost before: FolderProps)
    returns (saved: TransferFolder.FolderEntity)
    requires folders.table.Valid() && before.path.None? && before.parentId.None?
    requires current.Props() == before && current.tracker.original == Some(TransferFolder.StateOf(before))
    requires LoadFolder(folders.table, current.id) == Some(before)
    modifies folders.table, current
    ensures folders.table.Valid()
    ensures LoadFolder(folders.table, current.id) == Some(TransferFolder.Step(before, TransferFolder.MarkCompleted))
  {
    current.MarkAsCompleted();
    saved := RefreshingWrite(folders, current, before);
  }

  /** The rename of `ProcessFolderRefreshed`, when the scan found a name:
      the entity afterwards is the one `update` returned. */
  method RenameRefreshed(folders: FolderRepository, folder: TransferFolder.FolderEntity, ghost p0: FolderProps, name: string)
    returns (current: TransferFolder.FolderEntity)
    requires folders.table.Valid() && p0.path.None? && p0.parentId.None?
    requires folder.Props() == TransferFolder.Run(p0, [TransferFolder.MarkScanning])
    requires folder.tracker.original == Some(TransferFolder.StateOf(folder.Props()))
    requires LoadFolder(folders.table, folder.id) == Some(folder.Props())
    modifies folders.table, folder
    ensures folders.table.Valid() && (current == folder || fresh(current))
    ensures current.Props() == TransferFolder.Run(p0, BeforeCompletion(name)) && current.id == folder.id
    ensures current.tracker.original == Some(TransferFolder.StateOf(current.Props()))
    ensures LoadFolder(folders.table, folder.id) == Some(current.Props())
  {
    SuccessSteps(p0, Ok(ScanResult([], name)));
    current := folder;
    if name != "" {
      current.UpdateName(name);
      current := RefreshingWrite(folders, current, TransferFolder.Run(p0, [TransferFolder.MarkScanning]));
    }
  }
}
