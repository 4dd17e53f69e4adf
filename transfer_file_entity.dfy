/** `TransferFileEntity`: one video of a scanned folder and its transfer
    status. */
module TransferFile {
  import opened Wrappers
  import opened EntityBase
  import TransferFolder

  type TransferStatus = TransferFolder.TransferStatus

  /** `TransferFileProps`; `errorLog` is `None` where it is `null`. */
  datatype FileProps = FileProps(
    id: string, folderId: string, originalUrl: string, name: string,
    status: TransferStatus, errorLog: Option<string>, createdAt: int, updatedAt: int)

  /** `getCurrentState` of a file holding `p`: every property but id. */
  function StateOf(p: FileProps): Row {
    map["folderId" := Str(p.folderId), "originalUrl" := Str(p.originalUrl),
        "name" := Str(p.name), "status" := Str(TransferFolder.StatusName(p.status)),
        "errorLog" := NullableValue(p.errorLog), "createdAt" := Num(p.createdAt),
        "updatedAt" := Num(p.updatedAt)]
  }

  /** `toObject` of a file holding `p`, as a row. */
  function ObjectOf(p: FileProps): Row {
    map["id" := Str(p.id), "folderId" := Str(p.folderId), "originalUrl" := Str(p.originalUrl),
        "name" := Str(p.name), "status" := Str(TransferFolder.StatusName(p.status)),
        "errorLog" := NullableValue(p.errorLog), "createdAt" := Num(p.createdAt),
        "updatedAt" := Num(p.updatedAt)]
  }

  /** `toObject` is `getCurrentState` plus the id, and the id is never
      part of the tracked state. */
  lemma ObjectIsStatePlusId(p: FileProps)
    ensures ObjectOf(p) == StateOf(p)["id" := Str(p.id)]
    ensures "id" !in StateOf(p)
    ensures ObjectOf(p) - {"id"} == StateOf(p)
  {
    assert ObjectOf(p).Keys == StateOf(p)["id" := Str(p.id)].Keys;
    assert (ObjectOf(p) - {"id"}).Keys == StateOf(p).Keys;
  }

  /** `createNew`: id '0', PENDING, no error, and the given folder, url and
      name. */
  function NewFile(folderId: string, originalUrl: string, name: string, now: int): (p: FileProps)
    ensures p.id == "0" && p.status == TransferFolder.PENDING && p.errorLog == None
    ensures p.folderId == folderId && p.originalUrl == originalUrl && p.name == name
    ensures p.createdAt == now && p.updatedAt == now
  {
    FileProps("0", folderId, originalUrl, name, TransferFolder.PENDING, None, now, now)
  }

  /** The file's mutators. */
  datatype FileOp = MarkProcessing | MarkCompleted | MarkFailed(error: string) | MarkPending | Rename(name: string)

  /** The file after one mutator. `markAsProcessing` keeps the error log;
      the other status mutators set it (failed) or clear it. */
  function Step(p: FileProps, op: FileOp): FileProps {
    match op
    case MarkProcessing => p.(status := TransferFolder.PROCESSING)
    case MarkCompleted => p.(status := TransferFolder.COMPLETED, errorLog := None)
    case MarkFailed(e) => p.(status := TransferFolder.FAILED, errorLog := Some(e))
    case MarkPending => p.(status := TransferFolder.PENDING, errorLog := None)
    case Rename(n) => p.(name := n)
  }

  function Run(p: FileProps, ops: seq<FileOp>): FileProps
    decreases |ops|
  {
    if |ops| == 0 then p else Run(Step(p, ops[0]), ops[1..])
  }

  /** Running one more mutator is a step from where the run ended. */
  lemma {:induction false} RunSnoc(p: FileProps, ops: seq<FileOp>, op: FileOp)
    ensures Run(p, ops + [op]) == Step(Run(p, ops), op)
    decreases |ops|
  {
    if |ops| == 0 {
      assert ops + [op] == [op];
    } else {
      assert (ops + [op])[1..] == ops[1..] + [op];
      RunSnoc(Step(p, ops[0]), ops[1..], op);
    }
  }

  /** The state properties a mutator can change. */
  function Touched(op: FileOp): set<string> {
    match op
    case MarkProcessing => {"status"}
    case Rename(_) => {"name"}
    case _ => {"status", "errorLog"}
  }

  /** An error log is only ever seen on a failed file or on one that was
      failed and has been picked up again. */
  predicate ErrorLogConsistent(p: FileProps) {
    p.errorLog.Some? ==> p.status == TransferFolder.FAILED || p.status == TransferFolder.PROCESSING
  }

  /** Every mutator keeps the error log consistent, and a new file starts
      consistent. */
  lemma {:induction false} RunKeepsErrorLogConsistent(p: FileProps, ops: seq<FileOp>)
    requires ErrorLogConsistent(p)
    ensures ErrorLogConsistent(Run(p, ops))
    decreases |ops|
  {
    if |ops| > 0 {
      RunKeepsErrorLogConsistent(Step(p, ops[0]), ops[1..]);
    }
  }

  /** Whatever mutators run, id, folderId, originalUrl, createdAt and
      updatedAt stay as they were. */
  lemma {:induction false} RunKeepsIdentity(p: FileProps, ops: seq<FileOp>)
    ensures var q := Run(p, ops);
      q.id == p.id && q.folderId == p.folderId && q.originalUrl == p.originalUrl &&
      q.createdAt == p.createdAt && q.updatedAt == p.updatedAt
    decreases |ops|
  {
    if |ops| > 0 {
      RunKeepsIdentity(Step(p, ops[0]), ops[1..]);
    }
  }

  /** The last status mutator of a run decides the status and the error
      log: after a run ending in `markAsFailed(e)` the file is FAILED with
      log `e`, and after one ending in `markAsCompleted` or `markAsPending`
      the log is clear. */
  lemma {:induction false} LastMutatorDecides(p: FileProps, ops: seq<FileOp>, op: FileOp)
    requires !op.Rename? && !op.MarkProcessing?
    ensures Run(p, ops + [op]).status == Step(Run(p, ops), op).status
    ensures op.MarkFailed? ==> Run(p, ops + [op]).errorLog == Some(op.error)
    ensures !op.MarkFailed? ==> Run(p, ops + [op]).errorLog == None
    decreases |ops|
  {
    if |ops| == 0 {
      assert ops + [op] == [op];
    } else {
      assert (ops + [op])[1..] == ops[1..] + [op];
      LastMutatorDecides(Step(p, ops[0]), ops[1..], op);
    }
  }

  /** A mutator changes only the state properties it touches, so only
      those can appear in the file's update clause. */
  lemma StepChangesOnlyTouched(p: FileProps, op: FileOp)
    ensures Changes(StateOf(p), StateOf(Step(p, op))).Keys <= Touched(op)
  {
    var c := Changes(StateOf(p), StateOf(Step(p, op)));
    forall k | k in c ensures k in Touched(op) {
      assert StateOf(Step(p, op))[k] != StateOf(p)[k];
    }
  }

  /** The domain object. The tracker holds the dirty-checking snapshot. */
  class FileEntity {
    const id: string
    const folderId: string
    var originalUrl: string
    var name: string
    var status: TransferStatus
    var errorLog: Option<string>
    const createdAt: int
    const updatedAt: int
    const tracker: Tracker

    /** The private constructor: copies the properties and takes the
        initial snapshot. */
    constructor(p: FileProps)
      ensures Props() == p
      ensures fresh(tracker) && tracker.original == Some(StateOf(p))
    {
      id := p.id;
      folderId := p.folderId;
      originalUrl := p.originalUrl;
      name := p.name;
      status := p.status;
      errorLog := p.errorLog;
      createdAt := p.createdAt;
      updatedAt := p.updatedAt;
      tracker := new Tracker();
      new;
      tracker.SetInitialState(StateOf(p));
    }

    /** `toObject`. */
    function Props(): FileProps
      reads this
    {
      FileProps(id, folderId, originalUrl, name, status, errorLog, createdAt, updatedAt)
    }

    /** `getCurrentState`. */
    function State(): Row
      reads this
    {
      StateOf(Props())
    }

    function IsDirty(): bool
      reads this, tracker
    {
      tracker.IsDirty(State())
    }

    method MarkAsProcessing()
      modifies this
      ensures Props() == Step(old(Props()), MarkProcessing)
    {
      status := TransferFolder.PROCESSING;
    }

    method MarkAsCompleted()
      modifies this
      ensures Props() == Step(old(Props()), MarkCompleted)
    {
      status := TransferFolder.COMPLETED;
      errorLog := None;
    }

    method MarkAsFailed(error: string)
      modifies this
      ensures Props() == Step(old(Props()), MarkFailed(error))
    {
      status := TransferFolder.FAILED;
      errorLog := Some(error);
    }

    method MarkAsPending()
      modifies this
      ensures Props() == Step(old(Props()), MarkPending)
    {
      status := TransferFolder.PENDING;
      errorLog := None;
    }

    method UpdateName(newName: string)
      modifies this
      ensures Props() == Step(old(Props()), Rename(newName))
    {
      name := newName;
    }
  }

  /** `createNew`; `now` is the clock reading. A new file is clean. */
  method CreateNew(folderId: string, originalUrl: string, name: string, now: int) returns (e: FileEntity)
    ensures fresh(e) && fresh(e.tracker)
    ensures e.Props() == NewFile(folderId, originalUrl, name, now)
    ensures !e.IsDirty()
  {
    e := new FileEntity(NewFile(folderId, originalUrl, name, now));
    NoChangesAgainstSelf(e.State());
  }

  /** `fromData`: a file holding exactly the given properties, clean. */
  method FromData(p: FileProps) returns (e: FileEntity)
    ensures fresh(e) && fresh(e.tracker)
    ensures e.Props() == p && !e.IsDirty()
    ensures e.tracker.original == Some(StateOf(p))
  {
    e := new FileEntity(p);
    NoChangesAgainstSelf(e.State());
  }
}
