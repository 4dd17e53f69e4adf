/** The transfer use cases: create a folder and queue its scan, queue every
    pending file, and retry failed files. The store is the repositories'
    table and the queues are append-only job sequences. */
module TransferUseCases {
  import opened Wrappers
  import opened EntityBase
  import opened RepositoryBase
  import opened JobQueue
  import opened TransferRepositories
  import TransferFolder
  import TransferFile

  // ------------------------------------------------------ create a folder

  /** `CreateTransferFolderUseCase.execute`: the new folder is stored first,
      then one 'scan-folder' job naming the stored folder is queued, and the
      stored folder is returned. */
  method CreateTransferFolder(repo: FolderRepository, queue: Queue, url: string, name: Option<string>, now: int)
    returns (saved: TransferFolder.FolderEntity)
    requires repo.table.Valid()
    modifies repo.table, queue
    ensures repo.table.Valid()
    ensures repo.table.records == old(repo.table.records) +
      [Record(saved.id, Defined(FolderCreateInput(TransferFolder.NewFolder(url, name, None, None, now))))]
    ensures saved.Props() == TransferFolder.NewFolder(url, name, None, None, now).(id := saved.id, path := None, parentId := None)
    ensures saved.id != "0" && saved.url == url && saved.status == TransferFolder.PENDING
    ensures name.Some? ==> saved.name == name.value
    ensures name.None? ==> saved.name == "Transfer"
    ensures repo.table.FindUnique(saved.id).Some?
    ensures queue.jobs == old(queue.jobs) + [Job(SCAN_FOLDER, ScanFolder(saved.id, saved.url))]
  {
    var folder := TransferFolder.CreateNew(url, name, None, None, now);
    saved := repo.Create(folder);
    assert repo.table.records[|repo.table.records| - 1].id == saved.id;
    queue.Add(SCAN_FOLDER, ScanFolder(saved.id, saved.url));
  }

  // ------------------------------------------------ queue pending files

  /** The 'process-file' job of each file, in order. */
  function FileJobs(files: seq<FileProps>): (jobs: seq<Job>)
    ensures |jobs| == |files|
    ensures forall i :: 0 <= i < |files| ==> jobs[i] == Job(PROCESS_FILE, ProcessFile(files[i].id))
  {
    seq(|files|, i requires 0 <= i < |files| => Job(PROCESS_FILE, ProcessFile(files[i].id)))
  }

  /** `ProcessPendingFilesUseCase.execute`: one 'process-file' job per
      pending file, in the order the repository returns them; the count of
      files is returned. The store is not written. */
  method ProcessPendingFiles(repo: FileRepository, queue: Queue) returns (count: nat)
    modifies queue
    ensures count == |FindPendingFiles(repo.table)|
    ensures queue.jobs == old(queue.jobs) + FileJobs(FindPendingFiles(repo.table))
  {
    var pending := FindPendingFiles(repo.table);
    EnqueueFiles(queue, pending);
    count := |pending|;
  }

  /** The loop both use cases share: one 'process-file' job per file, in
      order. */
  method EnqueueFiles(queue: Queue, files: seq<FileProps>)
    modifies queue
    ensures queue.jobs == old(queue.jobs) + FileJobs(files)
  {
    var k := 0;
    while k < |files|
      invariant 0 <= k <= |files|
      invariant queue.jobs == old(queue.jobs) + FileJobs(files[..k])
    {
      queue.Add(PROCESS_FILE, ProcessFile(files[k].id));
      assert FileJobs(files[..k + 1]) == FileJobs(files[..k]) + [Job(PROCESS_FILE, ProcessFile(files[k].id))];
      k := k + 1;
    }
    assert files[..k] == files;
  }

  // -------------------------------------------------- retry failed files

  /** The `where` of the failed-file query. */
  const FAILED_WHERE: Where := Equals("status", Str("FAILED"))

  predicate IsFailed(rec: Record) {
    FileFromRecord(rec).status == TransferFolder.FAILED
  }

  /** The failed-file query selects exactly the records that load as FAILED. */
  lemma FailedWhereSelectsFailed(rec: Record)
    ensures Matches(FAILED_WHERE, rec) <==> IsFailed(rec)
  {
    TransferFolder.ParseStatusName(TransferFolder.FAILED);
    if IsFailed(rec) {
      assert TransferFolder.ParseStatus(StrColumn(rec, "status")) == Some(TransferFolder.FAILED);
    }
  }

  /** The update clause `update` writes for a loaded file after
      `markAsPending`. */
  function PendingClause(rec: Record): Row {
    var f := FileFromRecord(rec);
    Changes(TransferFile.StateOf(f), TransferFile.StateOf(TransferFile.Step(f, TransferFile.MarkPending)))
  }

  /** A failed file's pending clause is never empty: it writes the status. */
  lemma PendingClauseWritesStatus(rec: Record)
    requires IsFailed(rec)
    ensures "status" in PendingClause(rec)
  {
  }

  /** The record once that clause is written. */
  function Reset(rec: Record): Record {
    Record(rec.id, Apply(rec.data, PendingClause(rec)))
  }

  /** A reset record loads as the file after `markAsPending`: PENDING, with
      no error log, everything else as it was. */
  lemma ResetReloads(rec: Record)
    ensures Reset(rec).id == rec.id
    ensures FileFromRecord(Reset(rec)) == TransferFile.Step(FileFromRecord(rec), TransferFile.MarkPending)
    ensures !IsFailed(Reset(rec))
  {
    FileReloadsAfterUpdate(rec, TransferFile.Step(FileFromRecord(rec), TransferFile.MarkPending));
  }

  /** The store after resetting the failed records whose ids are in `ids`. */
  function ResetWhere(rs: seq<Record>, ids: set<string>): seq<Record> {
    seq(|rs|, i requires 0 <= i < |rs| => if rs[i].id in ids && IsFailed(rs[i]) then Reset(rs[i]) else rs[i])
  }

  /** The store after every failed record has been reset. */
  function RetryAll(rs: seq<Record>): seq<Record> {
    seq(|rs|, i requires 0 <= i < |rs| => if IsFailed(rs[i]) then Reset(rs[i]) else rs[i])
  }

  /** Retrying everything keeps every record in place under its id, turns
      each failed file into the same file PENDING with no error log, leaves
      the other files alone, and leaves no failed file behind. */
  lemma RetryAllEffect(rs: seq<Record>)
    ensures |RetryAll(rs)| == |rs|
    ensures forall i :: 0 <= i < |rs| ==> RetryAll(rs)[i].id == rs[i].id
    ensures forall i :: 0 <= i < |rs| ==> (FileFromRecord(RetryAll(rs)[i]) ==
      if IsFailed(rs[i]) then TransferFile.Step(FileFromRecord(rs[i]), TransferFile.MarkPending) else FileFromRecord(rs[i]))
    ensures Filter(RetryAll(rs), FAILED_WHERE) == []
  {
    var r := RetryAll(rs);
    forall i | 0 <= i < |rs|
      ensures r[i].id == rs[i].id
      ensures FileFromRecord(r[i]) ==
        if IsFailed(rs[i]) then TransferFile.Step(FileFromRecord(rs[i]), TransferFile.MarkPending) else FileFromRecord(rs[i])
      ensures !IsFailed(r[i])
    {
      ResetReloads(rs[i]);
      FailedWhereSelectsFailed(rs[i]);
    }
    var f := Filter(r, FAILED_WHERE);
    if |f| > 0 {
      assert f[0] in f;
      var i :| 0 <= i < |r| && r[i] == f[0];
      FailedWhereSelectsFailed(r[i]);
    }
  }

  /** Resetting one more failed record, by its id, extends the reset set. */
  lemma ResetOneMore(rs: seq<Record>, done: set<string>, i: nat)
    requires UniqueIds(rs) && i < |rs| && rs[i].id !in done && IsFailed(rs[i])
    ensures UpdateIn(ResetWhere(rs, done), rs[i].id, PendingClause(rs[i])) == ResetWhere(rs, done + {rs[i].id})
  {
    DefinedChanges(TransferFile.StateOf(FileFromRecord(rs[i])),
      TransferFile.StateOf(TransferFile.Step(FileFromRecord(rs[i]), TransferFile.MarkPending)));
    var a := UpdateIn(ResetWhere(rs, done), rs[i].id, PendingClause(rs[i]));
    var b := ResetWhere(rs, done + {rs[i].id});
    forall m | 0 <= m < |rs| ensures a[m] == b[m] {
      if m != i {
        assert rs[m].id != rs[i].id;
      }
    }
  }

  /** What `execute` of the retry use case reports per file. */
  datatype FileSummary = FileSummary(id: string, name: string, originalUrl: string)

  function SummaryOf(f: FileProps): FileSummary {
    FileSummary(f.id, f.name, f.originalUrl)
  }

  /** `RetryFailedFilesUseCase.execute`: every failed file is reset to
      PENDING with no error log and written back (the store ends as
      `RetryAll` of what it was), and only then is one 'process-file' job
      queued per failed file, in order. The count and a summary of each
      file are returned. */
  method RetryFailedFiles(repo: FileRepository, queue: Queue) returns (count: nat, files: seq<FileSummary>)
    requires repo.table.Valid()
    modifies repo.table, queue
    ensures repo.table.Valid()
    ensures repo.table.records == RetryAll(old(repo.table.records))
    ensures count == |old(FindFailedFiles(repo.table))| == |files|
    ensures forall i :: 0 <= i < count ==> files[i] == SummaryOf(old(FindFailedFiles(repo.table))[i])
    ensures queue.jobs == old(queue.jobs) + FileJobs(old(FindFailedFiles(repo.table)))
  {
    var failed := FindFailedFiles(repo.table);
    assert failed == FilesOf(Filter(repo.table.records, FAILED_WHERE));
    ResetFailedFiles(repo, failed);
    EnqueueFiles(queue, failed);
    count := |failed|;
    files := seq(|failed|, i requires 0 <= i < |failed| => SummaryOf(failed[i]));
  }

  /** The reset loop of `execute`: each listed failed file in turn is
      marked pending and written back. */
  method ResetFailedFiles(repo: FileRepository, failed: seq<FileProps>)
    requires repo.table.Valid() && failed == FilesOf(Filter(repo.table.records, FAILED_WHERE))
    modifies repo.table
    ensures repo.table.Valid()
    ensures repo.table.records == RetryAll(old(repo.table.records))
  {
    ghost var rs := repo.table.records;
    ghost var fr := Filter(rs, FAILED_WHERE);
    FilterKeepsUnique(rs, FAILED_WHERE);
    var k := 0;
    while k < |failed|
      invariant 0 <= k <= |failed|
      invariant repo.table.Valid()
      invariant repo.table.records == ResetWhere(rs, IdsOf(fr[..k]))
    {
      ResetListed(repo, failed, rs, fr, k);
      k := k + 1;
    }
    assert fr[..k] == fr;
    FailedAllListed(rs, IdsOf(fr));
  }

  /** One turn of the reset loop: the `k`th listed failed file is reset. */
  method ResetListed(repo: FileRepository, failed: seq<FileProps>, ghost rs: seq<Record>, ghost fr: seq<Record>, k: nat)
    requires repo.table.Valid() && UniqueIds(rs) && UniqueIds(fr)
    requires fr == Filter(rs, FAILED_WHERE) && failed == FilesOf(fr) && k < |fr|
    requires repo.table.records == ResetWhere(rs, IdsOf(fr[..k]))
    modifies repo.table
    ensures repo.table.Valid() && repo.table.records == ResetWhere(rs, IdsOf(fr[..k + 1]))
  {
    ghost var i := ListedStep(rs, fr, k);
    ResetFile(repo, failed[k], rs, IdsOf(fr[..k]), i);
  }

  /** Where the `k`th listed failed file sits in the store, and how the
      set of reset ids grows by it. */
  lemma ListedStep(rs: seq<Record>, fr: seq<Record>, k: nat) returns (i: nat)
    requires UniqueIds(fr) && fr == Filter(rs, FAILED_WHERE) && k < |fr|
    ensures i < |rs| && rs[i] == fr[k] && IsFailed(rs[i]) && FilesOf(fr)[k] == FileFromRecord(rs[i])
    ensures rs[i].id !in IdsOf(fr[..k]) && IdsOf(fr[..k + 1]) == IdsOf(fr[..k]) + {rs[i].id}
  {
    i := ListedIndex(rs, fr, k);
    LaterIdUnlisted(fr, k);
    IdsOfPrefixStep(fr, k);
  }

  lemma IdsOfPrefixStep(s: seq<Record>, k: nat)
    requires k < |s|
    ensures IdsOf(s[..k + 1]) == IdsOf(s[..k]) + {s[k].id}
  {
    var p := s[..k + 1];
    assert p[..|p| - 1] == s[..k];
  }

  /** The ids of a run of records. */
  function IdsOf(s: seq<Record>): (ids: set<string>)
    ensures forall j :: 0 <= j < |s| ==> s[j].id in ids
  {
    if |s| == 0 then {}
    else
      var init := s[..|s| - 1];
      assert forall j :: 0 <= j < |init| ==> init[j] == s[j];
      IdsOf(init) + {s[|s| - 1].id}
  }

  /** In a run of records with distinct ids, the `k`th id is not among
      the ids before it. */
  lemma LaterIdUnlisted(s: seq<Record>, k: nat)
    requires UniqueIds(s) && k < |s|
    ensures s[k].id !in IdsOf(s[..k])
  {
    var init := s[..k];
    forall j | 0 <= j < |init| ensures init[j].id != s[k].id {
      assert init[j] == s[j];
    }
    IdsOfOthers(init, s[k].id);
  }

  lemma {:induction false} IdsOfOthers(s: seq<Record>, x: string)
    requires forall j :: 0 <= j < |s| ==> s[j].id != x
    ensures x !in IdsOf(s)
  {
    if |s| > 0 {
      var init := s[..|s| - 1];
      assert forall j :: 0 <= j < |init| ==> init[j] == s[j];
      IdsOfOthers(init, x);
    }
  }

  /** The `k`th record the failed-file query lists, as a position in the
      store. */
  lemma ListedIndex(rs: seq<Record>, fr: seq<Record>, k: nat) returns (i: nat)
    requires fr == Filter(rs, FAILED_WHERE) && k < |fr|
    ensures i < |rs| && rs[i] == fr[k] && IsFailed(rs[i])
  {
    assert fr[k] in fr;
    i :| 0 <= i < |rs| && rs[i] == fr[k];
    FailedWhereSelectsFailed(rs[i]);
  }

  /** Once the id of every record the failed-file query selects is in
      `done`, the reset records are all the failed ones. */
  lemma FailedAllListed(rs: seq<Record>, done: set<string>)
    requires forall j :: 0 <= j < |Filter(rs, FAILED_WHERE)| ==> Filter(rs, FAILED_WHERE)[j].id in done
    ensures ResetWhere(rs, done) == RetryAll(rs)
  {
    var fr := Filter(rs, FAILED_WHERE);
    forall m | 0 <= m < |rs| && IsFailed(rs[m]) ensures rs[m].id in done {
      FailedWhereSelectsFailed(rs[m]);
      assert rs[m] in fr;
      var j :| 0 <= j < |fr| && fr[j] == rs[m];
    }
  }

  /** One pass of the reset loop of `execute`: the loaded failed file is
      marked pending and written back, which resets its record. */
  method ResetFile(repo: FileRepository, f: FileProps, ghost rs: seq<Record>, ghost done: set<string>, ghost i: nat)
    requires repo.table.Valid()
    requires UniqueIds(rs) && i < |rs| && rs[i].id !in done && IsFailed(rs[i]) && f == FileFromRecord(rs[i])
    requires repo.table.records == ResetWhere(rs, done)
    modifies repo.table
    ensures repo.table.Valid() && repo.table.records == ResetWhere(rs, done + {rs[i].id})
  {
    assert repo.table.records[i] == rs[i];
    IndexOfUnique(repo.table.records, i);
    var file := TransferFile.FromData(f);
    MarkPendingAndUpdate(repo, file, rs[i]);
    ResetOneMore(rs, done, i);
  }

  /** A loaded failed file marked pending and written back: its record
      gets the pending clause. */
  method MarkPendingAndUpdate(repo: FileRepository, file: TransferFile.FileEntity, ghost rec: Record)
    requires repo.table.Valid() && repo.table.FindUnique(rec.id) == Some(rec) && IsFailed(rec)
    requires file.Props() == FileFromRecord(rec) && file.tracker.original == Some(TransferFile.StateOf(file.Props()))
    modifies repo.table, file
    ensures repo.table.Valid()
    ensures repo.table.records == UpdateIn(old(repo.table.records), rec.id, PendingClause(rec))
    ensures repo.table.FindUnique(rec.id) == Some(Reset(rec))
  {
    file.MarkAsPending();
    assert file.Props() == TransferFile.Step(FileFromRecord(rec), TransferFile.MarkPending);
    assert file.tracker.ChangesOf(file.State()) == PendingClause(rec);
    PendingClauseWritesStatus(rec);
    var r := repo.Update(file);
  }

  /** `RetryFailedFilesUseCase.executeOne`: a missing file or one that is
      not FAILED is refused with nothing written or queued; otherwise the
      file is reset, written back, and one 'process-file' job is queued. */
  method RetryFailedFile(repo: FileRepository, queue: Queue, fileId: string) returns (retried: bool)
    requires repo.table.Valid()
    modifies repo.table, queue
    ensures repo.table.Valid()
    ensures retried <==> old(repo.table.FindUnique(fileId)).Some? && IsFailed(old(repo.table.FindUnique(fileId)).value)
    ensures !retried ==> repo.table.records == old(repo.table.records) && queue.jobs == old(queue.jobs)
    ensures retried ==>
      repo.table.records == UpdateIn(old(repo.table.records), fileId, PendingClause(old(repo.table.FindUnique(fileId)).value)) &&
      queue.jobs == old(queue.jobs) + [Job(PROCESS_FILE, ProcessFile(fileId))]
    ensures retried ==> (repo.table.FindUnique(fileId).Some? &&
      FileFromRecord(repo.table.FindUnique(fileId).value) ==
        TransferFile.Step(FileFromRecord(old(repo.table.FindUnique(fileId)).value), TransferFile.MarkPending))
  {
    var found := repo.FindById(fileId);
    if found.None? || found.value.status != TransferFolder.FAILED {
      return false;
    }
    var file := found.value;
    ghost var rec := repo.table.FindUnique(fileId).value;
    MarkPendingAndUpdate(repo, file, rec);
    ResetReloads(rec);
    queue.Add(PROCESS_FILE, ProcessFile(file.id));
    retried := true;
  }
}
