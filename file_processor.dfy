/** `TransferFileProcessor.process`, the worker of the 'file-queue': loads
    the file and its folder, marks the file PROCESSING, has the crawler
    download and merge the video, renames the result to the file's name,
    uploads it with rclone, marks the file COMPLETED and removes the local
    files; on failure it marks the file FAILED with the error, removes the
    job and fails it.

    As in the folder worker, the entity loaded first is kept for every
    write and its dirty check measures against the state loaded then
    (`StaleOutcome`). The clean-up derives the track names from the base
    name of the file it is given, which after the rename is the file's own
    name (`CleanupTargets`). `ProcessFileCorrected` is the worker with
    both put right. */
module FileProcessor {
  import opened Wrappers
  import opened Strings
  import opened NodePath
  import opened LocalFs
  import opened RepositoryBase
  import opened TransferRepositories
  import Crawler
  import FolderProcessor
  import TransferFolder
  import TransferFile

  type FileOp = TransferFile.FileOp

  // ------------------------------------------------------------- uploading

  /** `path.join(path.dirname(filePath), fileName)`. */
  function RenamedPath(filePath: string, fileName: string): string {
    JoinPath([Dirname(filePath), fileName])
  }

  /** The path `uploadToDrive` uploads and returns: the renamed path when
      the rename was needed and worked, the original path otherwise. */
  function Uploaded(files: set<string>, filePath: string, fileName: string, renameRefused: bool): string {
    var renamed := RenamedPath(filePath, fileName);
    if filePath != renamed && filePath in files && !renameRefused then renamed else filePath
  }

  function FilesAfterRename(files: set<string>, filePath: string, fileName: string, renameRefused: bool): set<string> {
    var up := Uploaded(files, filePath, fileName, renameRefused);
    if up != filePath then files - {filePath} + {up} else files
  }

  /** The rclone command: copy the file into the folder of that name on
      the `tyziiu` remote, with the configuration under `<cwd>/config`. */
  function RcloneCommand(fileToUpload: string, folderName: string, cwd: string): string {
    "rclone copy \"" + fileToUpload + "\" tyziiu:\"" + folderName + "\" --config \"" +
    JoinPath([cwd, "config", "rclone.conf"]) + "\" --progress"
  }

  /** `uploadToDrive(filePath, folderName, fileName)`; `upload` is how the
      rclone run ended. A failed rename is only logged; a failed upload
      fails with rclone's error. */
  method UploadToDrive(disk: LocalDisk, cwd: string, filePath: string, folderName: string, fileName: string,
                       renameRefused: bool, upload: Result<()>) returns (r: Result<string>, command: string)
    modifies disk
    ensures disk.files == FilesAfterRename(old(disk.files), filePath, fileName, renameRefused)
    ensures command == RcloneCommand(Uploaded(old(disk.files), filePath, fileName, renameRefused), folderName, cwd)
    ensures r == if upload.Ok? then Ok(Uploaded(old(disk.files), filePath, fileName, renameRefused))
                 else Err(upload.message)
  {
    var renamedPath := JoinPath([Dirname(filePath), fileName]);
    var wasRenamed := false;
    if filePath != renamedPath {
      wasRenamed := disk.Rename(filePath, renamedPath, renameRefused);
    }
    var fileToUpload := if wasRenamed then renamedPath else filePath;
    command := RcloneCommand(fileToUpload, folderName, cwd);
    if upload.Err? {
      return Err(upload.message), command;
    }
    r := Ok(fileToUpload);
  }

  /** A file in a plain directory is uploaded under the file's name, next
      to where it was, and is no longer found under its old name; when
      the rename is refused it is uploaded where it is. */
  lemma UploadRenames(d: string, x: string, name: string, files: set<string>, renameRefused: bool)
    requires PlainDir(d) && PlainSegment(x) && PlainSegment(name) && d + "/" + x in files
    ensures !renameRefused ==>
      Uploaded(files, d + "/" + x, name, renameRefused) == d + "/" + name &&
      d + "/" + name in FilesAfterRename(files, d + "/" + x, name, renameRefused) &&
      (x != name ==> d + "/" + x !in FilesAfterRename(files, d + "/" + x, name, renameRefused))
    ensures renameRefused ==>
      Uploaded(files, d + "/" + x, name, renameRefused) == d + "/" + x &&
      FilesAfterRename(files, d + "/" + x, name, renameRefused) == files
  {
    DirnameOfChild(d, x);
    JoinChild(d, name);
    if x != name {
      assert (d + "/" + x)[|d| + 1..] == x;
      assert (d + "/" + name)[|d| + 1..] == name;
    }
  }

  // -------------------------------------------------------------- clean-up

  /** The timestamp `cleanupLocalFiles` reads off a path: its base name
      without `.mp4`, with the first `output_`, then `video_`, then
      `audio_` removed. */
  function CleanupTimestamp(outputPath: string): string {
    var base := Basename(outputPath, ".mp4");
    RemoveFirst(RemoveFirst(RemoveFirst(base, "output_"), "video_"), "audio_")
  }

  /** The paths `cleanupLocalFiles(outputPath)` removes: the path itself and
      the two tracks named with its timestamp in the same directory. */
  function CleanupTargets(outputPath: string): (targets: seq<string>)
    ensures |targets| == 3 && targets[0] == outputPath
  {
    var dir := Dirname(outputPath);
    var ts := CleanupTimestamp(outputPath);
    [outputPath, JoinPath([dir, "video_" + ts + ".mp4"]), JoinPath([dir, "audio_" + ts + ".mp4"])]
  }

  function RemovedBy(targets: seq<string>, refused: set<string>): set<string> {
    set p | p in targets && p !in refused
  }

  /** `cleanupLocalFiles(outputPath)`: each target that exists is removed;
      a refusal is logged and the loop goes on. */
  method CleanupLocalFiles(disk: LocalDisk, outputPath: string, refused: set<string>)
    modifies disk
    ensures disk.files == old(disk.files) - RemovedBy(CleanupTargets(outputPath), refused)
  {
    CleanupPaths(disk, CleanupTargets(outputPath), refused);
  }

  /** The clean-up loop over `targets`. */
  method CleanupPaths(disk: LocalDisk, targets: seq<string>, refused: set<string>)
    modifies disk
    ensures disk.files == old(disk.files) - RemovedBy(targets, refused)
  {
    var i := 0;
    while i < |targets|
      invariant 0 <= i <= |targets|
      invariant disk.files == old(disk.files) - RemovedBy(targets[..i], refused)
    {
      if disk.Exists(targets[i]) {
        var ok := disk.Unlink(targets[i], refused);
      }
      assert targets[..i + 1] == targets[..i] + [targets[i]];
      i := i + 1;
    }
    assert targets[..i] == targets;
  }

  /** The timestamp read off a merged file's name is its digits. */
  lemma TimestampOfOutput(d: string, t: string)
    requires PlainDir(d) && |t| > 0 && forall i :: 0 <= i < |t| ==> '0' <= t[i] <= '9'
    requires PlainSegment("output_" + t + ".mp4")
    ensures CleanupTimestamp(d + "/" + ("output_" + t + ".mp4")) == t
  {
    var x := "output_" + t + ".mp4";
    BasenameOfChild(d, x, ".mp4");
    assert x[|x| - 4..] == ".mp4";
    assert x[..|x| - 4] == "output_" + t;
    RemoveLeading("output_", t);
    RemoveFromDigits(t, "video_", 0);
    RemoveFromDigits(t, "audio_", 0);
  }

  /** The merged file's clean-up finds the crawler's own tracks: for the
      output path of a download, the targets are the output, video and
      audio paths of that download. */
  lemma CleanupOfDownload(cwd: string, now: nat)
    requires PlainDir(cwd)
    ensures CleanupTargets(Crawler.OutputPath(cwd, now)) ==
      [Crawler.OutputPath(cwd, now), Crawler.VideoPath(cwd, now), Crawler.AudioPath(cwd, now)]
  {
    var d := Crawler.DownloadsDir(cwd);
    var t := NatToString(now);
    var x := "output_" + t + ".mp4";
    Crawler.TrackPathAsChild(cwd, "output_", now);
    DirnameOfChild(d, x);
    TimestampOfOutput(d, t);
  }

  /** The name `talk.mp4` gives the timestamp `talk`. */
  lemma TimestampOfTalk(d: string)
    requires PlainDir(d)
    ensures Dirname(d + "/" + "talk.mp4") == d
    ensures CleanupTimestamp(d + "/" + "talk.mp4") == "talk"
  {
    DirnameOfChild(d, "talk.mp4");
    BasenameOfChild(d, "talk.mp4", ".mp4");
    assert Basename(d + "/" + "talk.mp4", ".mp4") == "talk";
    assert RemoveFirst("talk", "output_") == "talk";
    assert RemoveFirst("talk", "video_") == "talk";
    assert RemoveFirst("talk", "audio_") == "talk";
  }

  /** The track names a timestamp of digits gives are not those of the
      name `talk.mp4`. */
  lemma DigitTracksDiffer(d: string, t: string)
    requires |t| > 0 && '0' <= t[0] <= '9'
    ensures d + "/video_" + t + ".mp4" !in [d + "/" + "talk.mp4", d + "/" + "video_talk.mp4", d + "/" + "audio_talk.mp4"]
    ensures d + "/audio_" + t + ".mp4" !in [d + "/" + "talk.mp4", d + "/" + "video_talk.mp4", d + "/" + "audio_talk.mp4"]
  {
    var v := d + "/video_" + t + ".mp4";
    var a := d + "/audio_" + t + ".mp4";
    assert v[|d| + 7] == t[0] && (d + "/" + "video_talk.mp4")[|d| + 7] == 't';
    assert a[|d| + 7] == t[0] && (d + "/" + "audio_talk.mp4")[|d| + 7] == 't';
    assert v[|d| + 1] == 'v' && a[|d| + 1] == 'a' && (d + "/" + "talk.mp4")[|d| + 1] == 't';
    assert (d + "/" + "video_talk.mp4")[|d| + 1] == 'v' && (d + "/" + "audio_talk.mp4")[|d| + 1] == 'a';
  }

  /** The targets of a file renamed to `talk.mp4`. */
  lemma TalkTargets(d: string)
    requires PlainDir(d)
    ensures CleanupTargets(d + "/" + "talk.mp4") ==
      [d + "/" + "talk.mp4", d + "/" + "video_talk.mp4", d + "/" + "audio_talk.mp4"]
  {
    TimestampOfTalk(d);
    TargetsFrom(d + "/" + "talk.mp4", d, "talk");
    TalkNames();
    JoinChild(d, "video_talk.mp4");
    JoinChild(d, "audio_talk.mp4");
  }

  lemma TalkNames()
    ensures "video_" + "talk" + ".mp4" == "video_talk.mp4" && PlainSegment("video_talk.mp4")
    ensures "audio_" + "talk" + ".mp4" == "audio_talk.mp4" && PlainSegment("audio_talk.mp4")
  {
  }

  /** The targets once the directory and the timestamp are known. */
  lemma TargetsFrom(p: string, dir: string, ts: string)
    requires Dirname(p) == dir && CleanupTimestamp(p) == ts
    ensures CleanupTargets(p) == [p, JoinPath([dir, "video_" + ts + ".mp4"]), JoinPath([dir, "audio_" + ts + ".mp4"])]
  {
  }

  /** As written, once the file has been renamed to `talk.mp4` the
      clean-up looks for `video_talk.mp4` and `audio_talk.mp4`, never for
      the download's tracks. */
  lemma RenamedCleanupMissesTracks(cwd: string, now: nat)
    requires PlainDir(cwd)
    ensures var d := Crawler.DownloadsDir(cwd);
      CleanupTargets(d + "/" + "talk.mp4") ==
        [d + "/" + "talk.mp4", d + "/" + "video_talk.mp4", d + "/" + "audio_talk.mp4"] &&
      Crawler.VideoPath(cwd, now) !in CleanupTargets(d + "/" + "talk.mp4") &&
      Crawler.AudioPath(cwd, now) !in CleanupTargets(d + "/" + "talk.mp4")
  {
    var d := Crawler.DownloadsDir(cwd);
    Crawler.TrackPaths(cwd, now);
    TalkTargets(d);
    DigitTracksDiffer(d, NatToString(now));
  }

  /** The clean-up as intended: the uploaded file, and the tracks named
      with the timestamp of the crawler's output path. */
  function CorrectedCleanupTargets(outputPath: string, uploaded: string): (targets: seq<string>)
    ensures |targets| == 3 && targets[0] == uploaded
  {
    [uploaded] + CleanupTargets(outputPath)[1..]
  }

  /** The corrected clean-up removes the download's own tracks, whatever
      name the file was uploaded under. */
  lemma CorrectedCleanupFindsTracks(cwd: string, now: nat, uploaded: string)
    requires PlainDir(cwd)
    ensures CorrectedCleanupTargets(Crawler.OutputPath(cwd, now), uploaded) ==
      [uploaded, Crawler.VideoPath(cwd, now), Crawler.AudioPath(cwd, now)]
  {
    CleanupOfDownload(cwd, now);
  }

  // ------------------------------------------------------------ the worker

  /** The file record with `id` loaded, when there is one. */
  function LoadFile(table: Table, id: string): Option<FileProps>
    reads table
  {
    match table.FindUnique(id)
    case Some(rec) => Some(FileFromRecord(rec))
    case None => None
  }

  /** `fileRepo.update(file)` for a file whose record exists, with the
      record's new load in terms of the entity's snapshot `base`. */
  method WriteFile(files: FileRepository, file: TransferFile.FileEntity, ghost base: FileProps)
    returns (saved: TransferFile.FileEntity)
    requires files.table.Valid() && files.table.FindUnique(file.id).Some?
    requires file.tracker.original == Some(TransferFile.StateOf(base))
    modifies files.table
    ensures files.table.Valid() && files.table.FindUnique(file.id).Some?
    ensures LoadFile(files.table, file.id) ==
      Some(FileWritten(old(LoadFile(files.table, file.id)).value, base, file.Props()))
    ensures saved == file || fresh(saved)
    ensures saved == file ==> files.table.records == old(files.table.records)
    ensures saved != file ==>
      saved.Props() == LoadFile(files.table, file.id).value &&
      saved.tracker.original == Some(TransferFile.StateOf(saved.Props()))
  {
    ghost var rec := files.table.FindUnique(file.id).value;
    var r := files.Update(file);
    FileUpdateLoads(rec, base, file.Props());
    saved := r.value;
  }

  /** The status mutator that ends a job with `outcome`. */
  function FinalOp(outcome: Result<()>): FileOp {
    if outcome.Ok? then TransferFile.MarkCompleted else TransferFile.MarkFailed(outcome.message)
  }

  /** How the job ends once file and folder are found: the crawler's
      error, rclone's error, or success. */
  function JobOutcome(cwd: string, runs: Crawler.DownloadRuns, upload: Result<()>): Result<()>
    requires Crawler.WellFormedRuns(runs)
  {
    var dl := Crawler.DownloadOutcome(cwd, runs);
    if dl.Err? then Err(dl.message) else if upload.Err? then Err(upload.message) else Ok(())
  }

  /** How the record of a file loaded as `base` loads after the job: the
      PROCESSING write, then the final mutator's write, both measured
      against `base`. */
  function StaleOutcome(base: FileProps, last: FileOp): FileProps {
    var p1 := TransferFile.Step(base, TransferFile.MarkProcessing);
    FileWritten(FileWritten(base, base, p1), base, TransferFile.Step(p1, last))
  }

  /** The local files after the job, given the clean-up targets of the
      uploaded path: the crawler's changes, then the rename, then, after
      a successful upload only, the clean-up. */
  function FilesAfterJobWith(files: set<string>, cwd: string, runs: Crawler.DownloadRuns, name: string,
                             renameRefused: bool, upload: Result<()>, corrected: bool): set<string>
    requires Crawler.WellFormedRuns(runs)
  {
    var d1 := Crawler.FilesAfterDownload(files, cwd, runs);
    var dl := Crawler.DownloadOutcome(cwd, runs);
    if dl.Err? then d1
    else
      var up := Uploaded(d1, dl.value, name, renameRefused);
      var d2 := FilesAfterRename(d1, dl.value, name, renameRefused);
      var targets := if corrected then CorrectedCleanupTargets(dl.value, up) else CleanupTargets(up);
      if upload.Err? then d2 else d2 - RemovedBy(targets, runs.refused)
  }

  function FilesAfterJob(files: set<string>, cwd: string, runs: Crawler.DownloadRuns, name: string,
                         renameRefused: bool, upload: Result<()>): set<string>
    requires Crawler.WellFormedRuns(runs)
  {
    FilesAfterJobWith(files, cwd, runs, name, renameRefused, upload, false)
  }

  /** `process` of a 'process-file' job for `fileId`. `cwd`, `runs`,
      `renameRefused` and `upload` stand for the working directory, what
      the crawler meets, whether the rename is refused and how rclone
      ends. Returns the job's outcome and whether `job.remove()` ran. A
      missing file or folder fails the job with nothing changed. */
  method ProcessFile(files: FileRepository, folders: TransferRepositories.FolderRepository, disk: LocalDisk,
                     cwd: string, fileId: string, runs: Crawler.DownloadRuns, renameRefused: bool,
                     upload: Result<()>) returns (r: Result<()>, removeJob: bool)
    requires files.table.Valid() && Crawler.WellFormedRuns(runs)
    modifies files.table, disk
    ensures files.table.Valid()
    ensures old(LoadFile(files.table, fileId)).None? ==>
      r == Err("File " + fileId + " not found") && !removeJob &&
      files.table.records == old(files.table.records) && disk.files == old(disk.files)
    ensures var f := old(LoadFile(files.table, fileId));
      f.Some? && old(FolderProcessor.LoadFolder(folders.table, f.value.folderId)).None? ==>
        r == Err("Folder " + f.value.folderId + " not found") && !removeJob &&
        files.table.records == old(files.table.records) && disk.files == old(disk.files)
    ensures var f := old(LoadFile(files.table, fileId));
      f.Some? && old(FolderProcessor.LoadFolder(folders.table, f.value.folderId)).Some? ==>
        r == JobOutcome(cwd, runs, upload) && removeJob == r.Err? &&
        LoadFile(files.table, fileId) == Some(StaleOutcome(f.value, FinalOp(r))) &&
        disk.files == FilesAfterJob(old(disk.files), cwd, runs, f.value.name, renameRefused, upload)
  {
    var found := files.FindById(fileId);
    if found.None? {
      return Err("File " + fileId + " not found"), false;
    }
    var file := found.value;
    var folder := folders.FindById(file.folderId);
    if folder.None? {
      return Err("Folder " + file.folderId + " not found"), false;
    }
    r, removeJob := TransferLoaded(files, disk, file, file.Props(), folder.value.name, cwd, runs, renameRefused, upload);
  }

  /** The `try`/`catch` of `process` for a file loaded as `f0`, every
      write measured against that load. */
  method TransferLoaded(files: FileRepository, disk: LocalDisk, file: TransferFile.FileEntity, ghost f0: FileProps,
                        folderName: string, cwd: string, runs: Crawler.DownloadRuns, renameRefused: bool,
                        upload: Result<()>) returns (r: Result<()>, removeJob: bool)
    requires files.table.Valid() && Crawler.WellFormedRuns(runs)
    requires file.Props() == f0 && file.tracker.original == Some(TransferFile.StateOf(f0))
    requires LoadFile(files.table, file.id) == Some(f0)
    modifies files.table, disk, file
    ensures files.table.Valid()
    ensures r == JobOutcome(cwd, runs, upload) && removeJob == r.Err?
    ensures LoadFile(files.table, file.id) == Some(StaleOutcome(f0, FinalOp(r)))
    ensures disk.files == FilesAfterJob(old(disk.files), cwd, runs, f0.name, renameRefused, upload)
  {
    file.MarkAsProcessing();
    var saved := WriteFile(files, file, f0);

    var download, uploaded := DownloadAndUpload(disk, cwd, runs, folderName, file.name, renameRefused, upload);
    if uploaded.Ok? {
      var finalPath := uploaded.value;
      WriteStaleFinal(files, file, f0, Ok(()));
      CleanupLocalFiles(disk, finalPath, runs.refused);
      return Ok(()), false;
    }
    WriteStaleFinal(files, file, f0, Err(uploaded.message));
    // the job is removed; a failure to remove it is ignored
    return Err(uploaded.message), true;
  }

  /** The ending of a job as written: the final mutator applied to the
      loaded entity, which is written back against its load-time snapshot. */
  method WriteStaleFinal(files: FileRepository, file: TransferFile.FileEntity, ghost f0: FileProps, outcome: Result<()>)
    requires files.table.Valid()
    requires file.Props() == TransferFile.Step(f0, TransferFile.MarkProcessing)
    requires file.tracker.original == Some(TransferFile.StateOf(f0))
    requires LoadFile(files.table, file.id) == Some(FileWritten(f0, f0, file.Props()))
    modifies files.table, file
    ensures files.table.Valid()
    ensures LoadFile(files.table, file.id) == Some(StaleOutcome(f0, FinalOp(outcome)))
  {
    if outcome.Ok? {
      file.MarkAsCompleted();
    } else {
      file.MarkAsFailed(outcome.message);
    }
    var saved := WriteFile(files, file, f0);
  }

  /** The part of the `try` block that works on the disk: the crawler's
      download, then the upload of its output under the file's name. A
      failed download is the upload's failure too. */
  method DownloadAndUpload(disk: LocalDisk, cwd: string, runs: Crawler.DownloadRuns, folderName: string,
                           name: string, renameRefused: bool, upload: Result<()>)
    returns (download: Result<string>, uploaded: Result<string>)
    requires Crawler.WellFormedRuns(runs)
    modifies disk
    ensures download == Crawler.DownloadOutcome(cwd, runs)
    ensures uploaded.Err? <==> JobOutcome(cwd, runs, upload).Err?
    ensures uploaded.Err? ==> JobOutcome(cwd, runs, upload) == Err(uploaded.message)
    ensures download.Err? ==> disk.files == Crawler.FilesAfterDownload(old(disk.files), cwd, runs)
    ensures download.Ok? ==>
      disk.files == FilesAfterRename(Crawler.FilesAfterDownload(old(disk.files), cwd, runs), download.value, name, renameRefused) &&
      (uploaded.Ok? ==> uploaded.value == Uploaded(Crawler.FilesAfterDownload(old(disk.files), cwd, runs), download.value, name, renameRefused))
  {
    download := Crawler.DownloadAndProcess(disk, cwd, runs);
    if download.Err? {
      return download, Err(download.message);
    }
    var command;
    uploaded, command := UploadToDrive(disk, cwd, download.value, folderName, name, renameRefused, upload);
  }

  /** As written, a job for a file loaded COMPLETED that succeeds, or for
      one loaded FAILED that fails again (with any message), leaves the
      file PROCESSING: the final status equals the loaded one, so it is
      not written over the PROCESSING written first. The error log always
      ends as the final mutator set it. */
  lemma StaleFileStatus(base: FileProps, outcome: Result<()>)
    ensures var last := TransferFile.Step(TransferFile.Step(base, TransferFile.MarkProcessing), FinalOp(outcome));
      StaleOutcome(base, FinalOp(outcome)).status ==
        (if last.status == base.status then TransferFolder.PROCESSING else last.status) &&
      StaleOutcome(base, FinalOp(outcome)).errorLog == last.errorLog
  {
  }

  /** The concrete cases: a second job for a file the first job completed,
      and a second failing job for a file that had failed. */
  lemma DuplicateJobStaysProcessing(base: FileProps, message: string)
    ensures base.status == TransferFolder.COMPLETED ==>
      StaleOutcome(base, FinalOp(Ok(()))).status == TransferFolder.PROCESSING
    ensures base.status == TransferFolder.FAILED ==>
      StaleOutcome(base, FinalOp(Err(message))).status == TransferFolder.PROCESSING
  {
    StaleFileStatus(base, Ok(()));
    StaleFileStatus(base, Err(message));
  }

  // ------------------------------------------------------ corrected worker

  /** `fileRepo.update(file)` whose result replaces the entity: afterwards
      the record loads as the file now is and the returned entity's
      snapshot is that state. */
  method RefreshingWriteFile(files: FileRepository, file: TransferFile.FileEntity, ghost loaded: FileProps)
    returns (saved: TransferFile.FileEntity)
    requires files.table.Valid() && LoadFile(files.table, file.id) == Some(loaded)
    requires file.tracker.original == Some(TransferFile.StateOf(loaded))
    modifies files.table
    ensures files.table.Valid()
    ensures LoadFile(files.table, file.id) == Some(file.Props())
    ensures saved == file || fresh(saved)
    ensures saved.Props() == file.Props()
    ensures saved.tracker.original == Some(TransferFile.StateOf(saved.Props()))
  {
    saved := WriteFile(files, file, loaded);
  }

  /** The local files after the corrected job. */
  function FilesAfterJobCorrected(files: set<string>, cwd: string, runs: Crawler.DownloadRuns, name: string,
                                  renameRefused: bool, upload: Result<()>): set<string>
    requires Crawler.WellFormedRuns(runs)
  {
    FilesAfterJobWith(files, cwd, runs, name, renameRefused, upload, true)
  }

  /** `process` continuing with the entity each `update` returns, and
      cleaning up the tracks of the crawler's output path: the file ends
      COMPLETED or FAILED with the job, whatever status it was loaded
      with. */
  method ProcessFileCorrected(files: FileRepository, folders: TransferRepositories.FolderRepository, disk: LocalDisk,
                              cwd: string, fileId: string, runs: Crawler.DownloadRuns, renameRefused: bool,
                              upload: Result<()>) returns (r: Result<()>, removeJob: bool)
    requires files.table.Valid() && Crawler.WellFormedRuns(runs)
    modifies files.table, disk
    ensures files.table.Valid()
    ensures old(LoadFile(files.table, fileId)).None? ==>
      r == Err("File " + fileId + " not found") && !removeJob &&
      files.table.records == old(files.table.records) && disk.files == old(disk.files)
    ensures var f := old(LoadFile(files.table, fileId));
      f.Some? && old(FolderProcessor.LoadFolder(folders.table, f.value.folderId)).None? ==>
        r == Err("Folder " + f.value.folderId + " not found") && !removeJob &&
        files.table.records == old(files.table.records) && disk.files == old(disk.files)
    ensures var f := old(LoadFile(files.table, fileId));
      f.Some? && old(FolderProcessor.LoadFolder(folders.table, f.value.folderId)).Some? ==>
        r == JobOutcome(cwd, runs, upload) && removeJob == r.Err? &&
        LoadFile(files.table, fileId) ==
          Some(TransferFile.Run(f.value, [TransferFile.MarkProcessing, FinalOp(r)])) &&
        LoadFile(files.table, fileId).value.status ==
          (if r.Ok? then TransferFolder.COMPLETED else TransferFolder.FAILED) &&
        disk.files == FilesAfterJobCorrected(old(disk.files), cwd, runs, f.value.name, renameRefused, upload)
  {
    var found := files.FindById(fileId);
    if found.None? {
      return Err("File " + fileId + " not found"), false;
    }
    var file := found.value;
    var folder := folders.FindById(file.folderId);
    if folder.None? {
      return Err("Folder " + file.folderId + " not found"), false;
    }
    r, removeJob := TransferLoadedCorrected(files, disk, file, file.Props(), folder.value.name, cwd, runs,
      renameRefused, upload);
  }

  /** The two mutators of a job, run from the loaded file. */
  lemma RunOfJob(f0: FileProps, outcome: Result<()>)
    ensures TransferFile.Run(f0, [TransferFile.MarkProcessing, FinalOp(outcome)]) ==
      TransferFile.Step(TransferFile.Step(f0, TransferFile.MarkProcessing), FinalOp(outcome))
    ensures TransferFile.Run(f0, [TransferFile.MarkProcessing, FinalOp(outcome)]).status ==
      (if outcome.Ok? then TransferFolder.COMPLETED else TransferFolder.FAILED)
  {
    var first: seq<FileOp> := [TransferFile.MarkProcessing];
    TransferFile.RunSnoc(f0, [], TransferFile.MarkProcessing);
    assert [] + first == first;
    TransferFile.RunSnoc(f0, first, FinalOp(outcome));
    assert first + [FinalOp(outcome)] == [TransferFile.MarkProcessing, FinalOp(outcome)];
  }

  /** The corrected `try`/`catch`. */
  method TransferLoadedCorrected(files: FileRepository, disk: LocalDisk, file: TransferFile.FileEntity,
                                 ghost f0: FileProps, folderName: string, cwd: string, runs: Crawler.DownloadRuns,
                                 renameRefused: bool, upload: Result<()>) returns (r: Result<()>, removeJob: bool)
    requires files.table.Valid() && Crawler.WellFormedRuns(runs)
    requires file.Props() == f0 && file.tracker.original == Some(TransferFile.StateOf(f0))
    requires LoadFile(files.table, file.id) == Some(f0)
    modifies files.table, disk, file
    ensures files.table.Valid()
    ensures r == JobOutcome(cwd, runs, upload) && removeJob == r.Err?
    ensures LoadFile(files.table, file.id) == Some(TransferFile.Run(f0, [TransferFile.MarkProcessing, FinalOp(r)]))
    ensures LoadFile(files.table, file.id).value.status ==
      (if r.Ok? then TransferFolder.COMPLETED else TransferFolder.FAILED)
    ensures disk.files == FilesAfterJobCorrected(old(disk.files), cwd, runs, f0.name, renameRefused, upload)
  {
    file.MarkAsProcessing();
    var current := RefreshingWriteFile(files, file, f0);
    assert current.name == f0.name;

    var download, uploaded := DownloadAndUpload(disk, cwd, runs, folderName, current.name, renameRefused, upload);
    if uploaded.Ok? {
      current := WriteFinal(files, current, f0, Ok(()));
      CleanupPaths(disk, CorrectedCleanupTargets(download.value, uploaded.value), runs.refused);
      return Ok(()), false;
    }
    current := WriteFinal(files, current, f0, Err(uploaded.message));
    return Err(uploaded.message), true;
  }

  /** The corrected ending of a job: the final mutator applied to the
      entity the first `update` returned, and written back. */
  method WriteFinal(files: FileRepository, current: TransferFile.FileEntity, ghost f0: FileProps, outcome: Result<()>)
    returns (saved: TransferFile.FileEntity)
    requires files.table.Valid()
    requires current.Props() == TransferFile.Step(f0, TransferFile.MarkProcessing)
    requires LoadFile(files.table, current.id) == Some(current.Props())
    requires current.tracker.original == Some(TransferFile.StateOf(current.Props()))
    modifies files.table, current
    ensures files.table.Valid()
    ensures LoadFile(files.table, current.id) == Some(TransferFile.Run(f0, [TransferFile.MarkProcessing, FinalOp(outcome)]))
    ensures LoadFile(files.table, current.id).value.status ==
      (if outcome.Ok? then TransferFolder.COMPLETED else TransferFolder.FAILED)
  {
    ghost var p1 := current.Props();
    if outcome.Ok? {
      current.MarkAsCompleted();
    } else {
      current.MarkAsFailed(outcome.message);
    }
    saved := RefreshingWriteFile(files, current, p1);
    RunOfJob(f0, outcome);
  }

  /** A successful download whose video track could not be removed
      leaves the merged file and the audio track on disk. */
  lemma DownloadLeavesTracks(files: set<string>, cwd: string, runs: Crawler.DownloadRuns)
    requires PlainDir(cwd) && Crawler.WellFormedRuns(runs)
    requires Crawler.DownloadOutcome(cwd, runs).Ok?
    requires Crawler.VideoPath(cwd, runs.now) in runs.refused
    ensures Crawler.DownloadOutcome(cwd, runs).value == Crawler.OutputPath(cwd, runs.now)
    ensures Crawler.OutputPath(cwd, runs.now) in Crawler.FilesAfterDownload(files, cwd, runs)
    ensures Crawler.AudioPath(cwd, runs.now) in Crawler.FilesAfterDownload(files, cwd, runs)
  {
  }

  /** The merged file of a download, renamed to `talk.mp4`. */
  lemma OutputRenamedToTalk(cwd: string, now: nat, d1: set<string>)
    requires PlainDir(cwd) && Crawler.OutputPath(cwd, now) in d1
    ensures Uploaded(d1, Crawler.OutputPath(cwd, now), "talk.mp4", false) == Crawler.DownloadsDir(cwd) + "/" + "talk.mp4"
    ensures Crawler.AudioPath(cwd, now) in d1 ==>
      Crawler.AudioPath(cwd, now) in FilesAfterRename(d1, Crawler.OutputPath(cwd, now), "talk.mp4", false)
  {
    var d := Crawler.DownloadsDir(cwd);
    var t := NatToString(now);
    Crawler.TrackPaths(cwd, now);
    Crawler.TrackPathAsChild(cwd, "output_", now);
    var x := "output_" + t + ".mp4";
    AudioIsNotTalk(d, t, Crawler.AudioPath(cwd, now));
    RenameToTalk(d, x, Crawler.OutputPath(cwd, now), Crawler.AudioPath(cwd, now), d1);
  }

  /** Renaming a file of a plain directory to `talk.mp4` leaves every
      other file but the renamed one in place. */
  lemma RenameToTalk(d: string, x: string, out: string, other: string, d1: set<string>)
    requires PlainDir(d) && PlainSegment(x) && out == d + "/" + x && out in d1
    requires other != out && other != d + "/" + "talk.mp4"
    ensures Uploaded(d1, out, "talk.mp4", false) == d + "/" + "talk.mp4"
    ensures other in d1 ==> other in FilesAfterRename(d1, out, "talk.mp4", false)
  {
    UploadRenames(d, x, "talk.mp4", d1, false);
  }

  lemma AudioIsNotTalk(d: string, t: string, audio: string)
    requires audio == d + "/audio_" + t + ".mp4"
    ensures audio != d + "/" + "talk.mp4"
  {
    assert audio[|d| + 1] == 'a' && (d + "/" + "talk.mp4")[|d| + 1] == 't';
  }

  /** The clean-up finding at the level of the job: the file is uploaded
      as `talk.mp4` after a run in which removing the video track was
      refused, so the crawler also left the audio track. As written the
      audio track stays on disk; corrected, it is removed. */
  lemma RenamedJobLeavesAudioTrack(files: set<string>, cwd: string, runs: Crawler.DownloadRuns)
    requires PlainDir(cwd) && Crawler.WellFormedRuns(runs)
    requires Crawler.DownloadOutcome(cwd, runs).Ok?
    requires Crawler.VideoPath(cwd, runs.now) in runs.refused
    requires Crawler.AudioPath(cwd, runs.now) !in runs.refused
    ensures Crawler.AudioPath(cwd, runs.now) in FilesAfterJob(files, cwd, runs, "talk.mp4", false, Ok(()))
    ensures Crawler.AudioPath(cwd, runs.now) !in FilesAfterJobCorrected(files, cwd, runs, "talk.mp4", false, Ok(()))
  {
    var d1 := Crawler.FilesAfterDownload(files, cwd, runs);
    DownloadLeavesTracks(files, cwd, runs);
    OutputRenamedToTalk(cwd, runs.now, d1);
    var up := Uploaded(d1, Crawler.OutputPath(cwd, runs.now), "talk.mp4", false);
    RenamedCleanupMissesTracks(cwd, runs.now);
    CorrectedCleanupFindsTracks(cwd, runs.now, up);
  }
}
