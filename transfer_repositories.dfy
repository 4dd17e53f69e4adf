/** `PrismaTransferFolderRepository` and `PrismaTransferFileRepository`:
    the record/entity mappings, the inherited base operations the workers
    and use cases call, and the transfer queries. Methods that only read an
    entity take its `toObject()` value. */
module TransferRepositories {
  import opened Wrappers
  import opened EntityBase
  import opened RepositoryBase
  import TransferFolder
  import TransferFile

  type FolderProps = TransferFolder.FolderProps
  type FileProps = TransferFile.FileProps

  function StatusColumn(rec: Record): TransferFolder.TransferStatus {
    TransferFolder.ParseStatus(StrColumn(rec, "status")).GetOr(TransferFolder.PENDING)
  }

  // ---------------------------------------------------------------- folders

  /** `fromData` of the folder repository: path and parentId are not read,
      so a loaded folder has neither, whatever is stored. */
  function FolderFromRecord(rec: Record): (p: FolderProps)
    ensures p.id == rec.id && p.path.None? && p.parentId.None?
    ensures Column(rec, "url").Str? ==> p.url == Column(rec, "url").s
    ensures Column(rec, "name").Str? ==> p.name == Column(rec, "name").s
    ensures Column(rec, "status").Str? && TransferFolder.ParseStatus(Column(rec, "status").s).Some? ==>
      Column(rec, "status") == Str(TransferFolder.StatusName(p.status))
  {
    TransferFolder.FolderProps(rec.id, StrColumn(rec, "url"), StrColumn(rec, "name"), None, None,
      StatusColumn(rec), NumColumn(rec, "createdAt"), NumColumn(rec, "updatedAt"))
  }

  /** `mapEntityToCreateInput` of the folder repository: `toObject` minus id. */
  function FolderCreateInput(p: FolderProps): (input: Row)
    ensures "id" !in input
    ensures input == TransferFolder.StateOf(p)
  {
    TransferFolder.ObjectIsStatePlusId(p);
    TransferFolder.ObjectOf(p) - {"id"}
  }

  /** A folder whose every defined state column is what the store holds
      loads back as itself, less path and parentId. */
  lemma FolderLoadsBack(id: string, stored: Row, p: FolderProps)
    requires forall k :: k in TransferFolder.StateOf(p) && TransferFolder.StateOf(p)[k] != Undefined ==>
      Get(stored, k) == TransferFolder.StateOf(p)[k]
    ensures FolderFromRecord(Record(id, stored)) == p.(id := id, path := None, parentId := None)
  {
    var st := TransferFolder.StateOf(p);
    assert Get(stored, "url") == st["url"];
    assert Get(stored, "name") == st["name"];
    assert Get(stored, "status") == st["status"];
    assert Get(stored, "createdAt") == st["createdAt"];
    assert Get(stored, "updatedAt") == st["updatedAt"];
    TransferFolder.ParseStatusName(p.status);
  }

  /** The folder's `findAll`: every folder, newest first. */
  function FolderQueryAll(table: Table): (r: seq<Record>)
    reads table
    ensures SortedBy(By("createdAt", Desc), r)
    ensures multiset(r) == multiset(table.records)
  {
    SortBySortsAndKeeps(By("createdAt", Desc), table.records);
    assert Filter(table.records, Any) == table.records by {
      FilterAnyKeepsAll(table.records);
    }
    SortBy(By("createdAt", Desc), table.records)
  }

  lemma {:induction false} FilterAnyKeepsAll(rs: seq<Record>)
    ensures Filter(rs, Any) == rs
  {
    if |rs| > 0 {
      FilterAnyKeepsAll(rs[1..]);
      assert rs == [rs[0]] + rs[1..];
    }
  }

  function FolderFindAll(table: Table): seq<FolderProps>
    reads table
  {
    var rs := FolderQueryAll(table);
    seq(|rs|, i requires 0 <= i < |rs| => FolderFromRecord(rs[i]))
  }

  class FolderRepository {
    const table: Table

    constructor(table: Table)
      ensures this.table == table
    {
      this.table := table;
    }

    /** `findById`: null when no record has the id, otherwise the loaded
        folder, clean. */
    method FindById(id: string) returns (e: Option<TransferFolder.FolderEntity>)
      ensures table.FindUnique(id).None? ==> e.None?
      ensures table.FindUnique(id).Some? ==>
        e.Some? && fresh(e.value) && fresh(e.value.tracker) && !e.value.IsDirty() &&
        e.value.Props() == FolderFromRecord(table.FindUnique(id).value) &&
        e.value.tracker.original == Some(TransferFolder.StateOf(e.value.Props()))
    {
      match table.FindUnique(id)
      case None => e := None;
      case Some(rec) =>
        var f := TransferFolder.FromData(FolderFromRecord(rec));
        e := Some(f);
    }

    /** `create`: one new record holding the folder's state; the stored
        folder comes back with its new id. */
    method Create(entity: TransferFolder.FolderEntity) returns (saved: TransferFolder.FolderEntity)
      requires table.Valid()
      modifies table
      ensures table.Valid()
      ensures |table.records| == |old(table.records)| + 1
      ensures table.records == old(table.records) + [Record(saved.id, Defined(FolderCreateInput(entity.Props())))]
      ensures saved.id == IdOf(old(table.next)) && saved.id != "0"
      ensures forall i :: 0 <= i < |old(table.records)| ==> old(table.records)[i].id != saved.id
      ensures saved.Props() == entity.Props().(id := saved.id, path := None, parentId := None)
      ensures fresh(saved) && fresh(saved.tracker) && !saved.IsDirty()
    {
      var rec := table.Create(FolderCreateInput(entity.Props()));
      IdOfInjective(0, old(table.next));
      FolderLoadsBack(rec.id, rec.data, entity.Props());
      saved := TransferFolder.FromData(FolderFromRecord(rec));
    }

    /** `update`: a clean folder is returned as it is and nothing is
        written; a dirty one has only its changed columns written and is
        reloaded from its record; a missing record fails. */
    method Update(entity: TransferFolder.FolderEntity) returns (r: Result<TransferFolder.FolderEntity>)
      requires table.Valid()
      modifies table
      ensures table.Valid()
      ensures !entity.IsDirty() ==> r == Ok(entity) && table.records == old(table.records)
      ensures entity.IsDirty() && old(table.FindUnique(entity.id)).None? ==>
        r.Err? && table.records == old(table.records)
      ensures entity.IsDirty() && old(table.FindUnique(entity.id)).Some? ==>
        table.records == UpdateIn(old(table.records), entity.id, entity.tracker.ChangesOf(entity.State())) &&
        r.Ok? && fresh(r.value) && !r.value.IsDirty() &&
        r.value.tracker.original == Some(TransferFolder.StateOf(r.value.Props())) &&
        r.value.Props() == FolderFromRecord(Record(entity.id,
          Apply(old(table.FindUnique(entity.id)).value.data, entity.tracker.ChangesOf(entity.State()))))
      ensures old(table.FindUnique(entity.id)).Some? ==>
        r.Ok? &&
        table.FindUnique(entity.id) == Some(Record(entity.id,
          Apply(old(table.FindUnique(entity.id)).value.data, entity.tracker.ChangesOf(entity.State()))))
    {
      var u := UpdateEntity(table, entity.id, entity.tracker, entity.State());
      match u
      case Err(msg) => r := Err(msg);
      case Ok(None) => r := Ok(entity);
      case Ok(Some(rec)) =>
        var f := TransferFolder.FromData(FolderFromRecord(rec));
        r := Ok(f);
    }
  }

  /** How a folder record that loads as `cur` loads once an entity built
      from `base` and now holding `after` has been written to it: each
      property takes its value in `after` where that differs from `base`
      and keeps its stored value elsewhere. */
  function FolderWritten(cur: FolderProps, base: FolderProps, after: FolderProps): (r: FolderProps)
    ensures r.id == cur.id && r.path.None? && r.parentId.None?
  {
    TransferFolder.FolderProps(cur.id,
      if after.url != base.url then after.url else cur.url,
      if after.name != base.name then after.name else cur.name,
      None, None,
      if after.status != base.status then after.status else cur.status,
      if after.createdAt != base.createdAt then after.createdAt else cur.createdAt,
      if after.updatedAt != base.updatedAt then after.updatedAt else cur.updatedAt)
  }

  /** The folder update, column by column. */
  lemma FolderUpdateLoads(rec: Record, base: FolderProps, after: FolderProps)
    ensures FolderFromRecord(Record(rec.id, Apply(rec.data, Changes(TransferFolder.StateOf(base), TransferFolder.StateOf(after)))))
      == FolderWritten(FolderFromRecord(rec), base, after)
  {
    var sb := TransferFolder.StateOf(base);
    var sa := TransferFolder.StateOf(after);
    StrColumnAfter(rec, sb, sa, "url", after.url);
    StrColumnAfter(rec, sb, sa, "name", after.name);
    StatusColumnAfter(rec, sb, sa, base.status, after.status);
    NumColumnAfter(rec, sb, sa, "createdAt", after.createdAt);
    NumColumnAfter(rec, sb, sa, "updatedAt", after.updatedAt);
  }

  /** Writing a loaded folder's changes back to its record and loading it
      again gives the folder as it now is, less path and parentId, which
      the repository never reads: the update round trip. */
  lemma FolderReloadsAfterUpdate(rec: Record, after: FolderProps)
    ensures var before := FolderFromRecord(rec);
      FolderFromRecord(Record(rec.id, Apply(rec.data, Changes(TransferFolder.StateOf(before), TransferFolder.StateOf(after)))))
      == after.(id := rec.id, path := None, parentId := None)
  {
    FolderUpdateLoads(rec, FolderFromRecord(rec), after);
  }

  /** The status column reads back like a text column. */
  lemma StatusColumnAfter(rec: Record, before: Row, after: Row, b: TransferFolder.TransferStatus, x: TransferFolder.TransferStatus)
    requires "status" in before && before["status"] == Str(TransferFolder.StatusName(b))
    requires "status" in after && after["status"] == Str(TransferFolder.StatusName(x))
    ensures StatusColumn(Record(rec.id, Apply(rec.data, Changes(before, after)))) ==
      if x != b then x else StatusColumn(rec)
  {
    ColumnAfterChanges(rec.data, before, after, "status");
    TransferFolder.ParseStatusName(x);
    TransferFolder.ParseStatusName(b);
  }

  // ------------------------------------------------------------------ files

  /** `fromData` of the file repository; the retry count and local path the
      record also carries are not part of the entity. */
  function FileFromRecord(rec: Record): (p: FileProps)
    ensures p.id == rec.id
    ensures Column(rec, "folderId").Str? ==> p.folderId == Column(rec, "folderId").s
    ensures Column(rec, "errorLog").Str? <==> p.errorLog.Some?
    ensures p.errorLog.Some? ==> Column(rec, "errorLog") == Str(p.errorLog.value)
  {
    TransferFile.FileProps(rec.id, StrColumn(rec, "folderId"), StrColumn(rec, "originalUrl"),
      StrColumn(rec, "name"), StatusColumn(rec), NullableColumn(rec, "errorLog"),
      NumColumn(rec, "createdAt"), NumColumn(rec, "updatedAt"))
  }

  /** `mapEntityToCreateInput` of the file repository: no id, and the
      retry count and local path are `undefined`, so the store writes
      exactly the file's state. */
  function FileCreateInput(p: FileProps): (input: Row)
    ensures "id" !in input
    ensures Defined(input) == TransferFile.StateOf(p)
  {
    var input := map["folderId" := Str(p.folderId), "originalUrl" := Str(p.originalUrl),
      "name" := Str(p.name), "status" := Str(TransferFolder.StatusName(p.status)),
      "retryCount" := Undefined, "errorLog" := NullableValue(p.errorLog),
      "localPath" := Undefined, "createdAt" := Num(p.createdAt), "updatedAt" := Num(p.updatedAt)];
    assert Defined(input).Keys == TransferFile.StateOf(p).Keys;
    input
  }

  /** How a file record that loads as `cur` loads once an entity built
      from `base` and now holding `after` has been written to it. */
  function FileWritten(cur: FileProps, base: FileProps, after: FileProps): (r: FileProps)
    ensures r.id == cur.id
  {
    TransferFile.FileProps(cur.id,
      if after.folderId != base.folderId then after.folderId else cur.folderId,
      if after.originalUrl != base.originalUrl then after.originalUrl else cur.originalUrl,
      if after.name != base.name then after.name else cur.name,
      if after.status != base.status then after.status else cur.status,
      if after.errorLog != base.errorLog then after.errorLog else cur.errorLog,
      if after.createdAt != base.createdAt then after.createdAt else cur.createdAt,
      if after.updatedAt != base.updatedAt then after.updatedAt else cur.updatedAt)
  }

  /** The file update, column by column. */
  lemma FileUpdateLoads(rec: Record, base: FileProps, after: FileProps)
    ensures FileFromRecord(FileRecordAfter(rec, base, after)) == FileWritten(FileFromRecord(rec), base, after)
  {
    FileTextColumnsLoad(rec, base, after);
    FileStateColumnsLoad(rec, base, after);
  }

  /** The record after writing the changes from `base` to `after`. */
  function FileRecordAfter(rec: Record, base: FileProps, after: FileProps): Record {
    Record(rec.id, Apply(rec.data, Changes(TransferFile.StateOf(base), TransferFile.StateOf(after))))
  }

  lemma FileTextColumnsLoad(rec: Record, base: FileProps, after: FileProps)
    ensures var r := FileFromRecord(FileRecordAfter(rec, base, after));
      var w := FileWritten(FileFromRecord(rec), base, after);
      r.folderId == w.folderId && r.originalUrl == w.originalUrl && r.name == w.name
  {
    var sb := TransferFile.StateOf(base);
    var sa := TransferFile.StateOf(after);
    StrColumnAfter(rec, sb, sa, "folderId", after.folderId);
    StrColumnAfter(rec, sb, sa, "originalUrl", after.originalUrl);
    StrColumnAfter(rec, sb, sa, "name", after.name);
  }

  lemma FileStateColumnsLoad(rec: Record, base: FileProps, after: FileProps)
    ensures var r := FileFromRecord(FileRecordAfter(rec, base, after));
      var w := FileWritten(FileFromRecord(rec), base, after);
      r.status == w.status && r.errorLog == w.errorLog && r.createdAt == w.createdAt && r.updatedAt == w.updatedAt
  {
    var sb := TransferFile.StateOf(base);
    var sa := TransferFile.StateOf(after);
    StatusColumnAfter(rec, sb, sa, base.status, after.status);
    NullableColumnAfter(rec, sb, sa, "errorLog", after.errorLog);
    assert sa["errorLog"] != Get(sb, "errorLog") <==> after.errorLog != base.errorLog;
    NumColumnAfter(rec, sb, sa, "createdAt", after.createdAt);
    NumColumnAfter(rec, sb, sa, "updatedAt", after.updatedAt);
  }

  /** Writing a loaded file's changes back to its record and loading it
      again gives the file as it now is: the update round trip. */
  lemma FileReloadsAfterUpdate(rec: Record, after: FileProps)
    ensures var before := FileFromRecord(rec);
      FileFromRecord(Record(rec.id, Apply(rec.data, Changes(TransferFile.StateOf(before), TransferFile.StateOf(after)))))
      == after.(id := rec.id)
  {
    FileUpdateLoads(rec, FileFromRecord(rec), after);
  }

  /** A file created from its create input loads back as itself. */
  lemma FileCreateLoadsBack(id: string, p: FileProps)
    ensures FileFromRecord(Record(id, Defined(FileCreateInput(p)))) == p.(id := id)
  {
    TransferFolder.ParseStatusName(p.status);
  }

  /** The records a file query selects, ordered by `createdAt` as asked:
      exactly the matching records, in that order. */
  function FileQuery(table: Table, w: Where, dir: Direction): (r: seq<Record>)
    reads table
    ensures SortedBy(By("createdAt", dir), r)
    ensures multiset(r) == multiset(Filter(table.records, w))
    ensures forall x :: x in r <==> x in table.records && Matches(w, x)
  {
    SortBySortsAndKeeps(By("createdAt", dir), Filter(table.records, w));
    var r := SortBy(By("createdAt", dir), Filter(table.records, w));
    assert forall x :: x in r <==> x in multiset(r);
    r
  }

  function FilesOf(rs: seq<Record>): (files: seq<FileProps>)
    ensures |files| == |rs|
    ensures forall i :: 0 <= i < |rs| ==> files[i] == FileFromRecord(rs[i])
  {
    seq(|rs|, i requires 0 <= i < |rs| => FileFromRecord(rs[i]))
  }

  /** `findByFolderId`: the folder's files, oldest first. */
  function FindByFolderId(table: Table, folderId: string): seq<FileProps>
    reads table
  {
    FilesOf(FileQuery(table, Equals("folderId", Str(folderId)), Asc))
  }

  /** `findPendingFiles`: the PENDING files, oldest first. */
  function FindPendingFiles(table: Table): (files: seq<FileProps>)
    reads table
    ensures forall i :: 0 <= i < |files| ==> files[i].status == TransferFolder.PENDING
  {
    var rs := FileQuery(table, Equals("status", Str("PENDING")), Asc);
    forall i | 0 <= i < |rs| ensures StatusColumn(rs[i]) == TransferFolder.PENDING {
      assert rs[i] in rs;
    }
    FilesOf(rs)
  }

  /** `findFailedFiles`, which the retry use case calls and the repository
      does not define: taken to be the FAILED files, in table order. */
  function FindFailedFiles(table: Table): (files: seq<FileProps>)
    reads table
    ensures forall i :: 0 <= i < |files| ==> files[i].status == TransferFolder.FAILED
  {
    var rs := Filter(table.records, Equals("status", Str("FAILED")));
    forall i | 0 <= i < |rs| ensures StatusColumn(rs[i]) == TransferFolder.FAILED {
      assert rs[i] in rs;
    }
    FilesOf(rs)
  }

  class FileRepository {
    const table: Table

    constructor(table: Table)
      ensures this.table == table
    {
      this.table := table;
    }

    /** `findById`: null when no record has the id, otherwise the loaded
        file, clean. */
    method FindById(id: string) returns (e: Option<TransferFile.FileEntity>)
      ensures table.FindUnique(id).None? ==> e.None?
      ensures table.FindUnique(id).Some? ==>
        e.Some? && fresh(e.value) && fresh(e.value.tracker) && !e.value.IsDirty() &&
        e.value.Props() == FileFromRecord(table.FindUnique(id).value) &&
        e.value.tracker.original == Some(TransferFile.StateOf(e.value.Props()))
    {
      match table.FindUnique(id)
      case None => e := None;
      case Some(rec) =>
        var f := TransferFile.FromData(FileFromRecord(rec));
        e := Some(f);
    }

    /** `update`, as for folders. */
    method Update(entity: TransferFile.FileEntity) returns (r: Result<TransferFile.FileEntity>)
      requires table.Valid()
      modifies table
      ensures table.Valid()
      ensures !entity.IsDirty() ==> r == Ok(entity) && table.records == old(table.records)
      ensures entity.IsDirty() && old(table.FindUnique(entity.id)).None? ==>
        r.Err? && table.records == old(table.records)
      ensures entity.IsDirty() && old(table.FindUnique(entity.id)).Some? ==>
        table.records == UpdateIn(old(table.records), entity.id, entity.tracker.ChangesOf(entity.State())) &&
        r.Ok? && fresh(r.value) && !r.value.IsDirty() &&
        r.value.tracker.original == Some(TransferFile.StateOf(r.value.Props())) &&
        r.value.Props() == FileFromRecord(Record(entity.id,
          Apply(old(table.FindUnique(entity.id)).value.data, entity.tracker.ChangesOf(entity.State()))))
      ensures old(table.FindUnique(entity.id)).Some? ==>
        r.Ok? &&
        table.FindUnique(entity.id) == Some(Record(entity.id,
          Apply(old(table.FindUnique(entity.id)).value.data, entity.tracker.ChangesOf(entity.State()))))
    {
      var u := UpdateEntity(table, entity.id, entity.tracker, entity.State());
      match u
      case Err(msg) => r := Err(msg);
      case Ok(None) => r := Ok(entity);
      case Ok(Some(rec)) =>
        var f := TransferFile.FromData(FileFromRecord(rec));
        r := Ok(f);
    }

    /** `createMany` of the file repository: inserts one record per file,
        then reads back at most as many of the newest records of the first
        file's folder (of every folder when there is no file). */
    method CreateMany(files: seq<FileProps>) returns (created: seq<FileProps>)
      requires table.Valid()
      modifies table
      ensures table.Valid()
      ensures |table.records| == |old(table.records)| + |files|
      ensures table.records[..|old(table.records)|] == old(table.records)
      ensures forall i :: 0 <= i < |files| ==>
        table.records[|old(table.records)| + i].data == TransferFile.StateOf(files[i])
      ensures forall i :: 0 <= i < |files| ==>
        FileFromRecord(table.records[|old(table.records)| + i]) == files[i].(id := table.records[|old(table.records)| + i].id)
      ensures |created| <= |files|
      ensures created == FilesOf(Newest(table, files))
    {
      var inputs := seq(|files|, i requires 0 <= i < |files| => FileCreateInput(files[i]));
      var recs := CreateAll(table, inputs);
      forall i | 0 <= i < |files| ensures FileFromRecord(recs[i]) == files[i].(id := recs[i].id) {
        FileCreateLoadsBack(recs[i].id, files[i]);
        assert recs[i] == Record(recs[i].id, Defined(FileCreateInput(files[i])));
      }
      created := FilesOf(Newest(table, files));
    }
  }

  /** What `createMany` reads back: the records of the first file's folder
      (no filter when there is no file), newest first, at most one per
      file. */
  function Newest(table: Table, files: seq<FileProps>): (r: seq<Record>)
    reads table
    ensures |r| <= |files|
    ensures |files| > 0 ==> forall i :: 0 <= i < |r| ==> Column(r[i], "folderId") == Str(files[0].folderId)
  {
    var w := if |files| > 0 then Equals("folderId", Str(files[0].folderId)) else Equals("folderId", Undefined);
    var rs := FileQuery(table, w, Desc);
    var n := if |files| <= |rs| then |files| else |rs|;
    assert Page(rs, 0, Some(|files|)) == Ok(rs[..n]);
    forall i | 0 <= i < n ensures Matches(w, rs[i]) {
      assert rs[i] in rs;
    }
    rs[..n]
  }
}
