/** `TransferFolderEntity`: a Google Drive folder submitted for transfer,
    with its scan status. */
module TransferFolder {
  import opened Wrappers
  import opened EntityBase

  /** `TransferStatus`, shared by folders and files. */
  datatype TransferStatus = PENDING | SCANNING | PROCESSING | COMPLETED | FAILED

  /** The string value of each enum member, as stored. */
  function StatusName(s: TransferStatus): string {
    match s
    case PENDING => "PENDING"
    case SCANNING => "SCANNING"
    case PROCESSING => "PROCESSING"
    case COMPLETED => "COMPLETED"
    case FAILED => "FAILED"
  }

  function ParseStatus(name: string): (r: Option<TransferStatus>)
    ensures r.Some? ==> StatusName(r.value) == name
  {
    if name == "PENDING" then Some(PENDING)
    else if name == "SCANNING" then Some(SCANNING)
    else if name == "PROCESSING" then Some(PROCESSING)
    else if name == "COMPLETED" then Some(COMPLETED)
    else if name == "FAILED" then Some(FAILED)
    else None
  }

  /** Every status reads back from its stored name. */
  lemma ParseStatusName(s: TransferStatus)
    ensures ParseStatus(StatusName(s)) == Some(s)
  {
  }

  /** `TransferFolderProps`. `path` and `parentId` are `None` where the
      property is `undefined`. */
  datatype FolderProps = FolderProps(
    id: string, url: string, name: string, path: Option<string>,
    parentId: Option<string>, status: TransferStatus, createdAt: int, updatedAt: int)

  function OptionalValue(o: Option<string>): Value {
    match o
    case Some(v) => Str(v)
    case None => Undefined
  }

  /** `getCurrentState` of a folder holding `p`: every property but id. */
  function StateOf(p: FolderProps): Row {
    map["url" := Str(p.url), "name" := Str(p.name), "path" := OptionalValue(p.path),
        "parentId" := OptionalValue(p.parentId), "status" := Str(StatusName(p.status)),
        "createdAt" := Num(p.createdAt), "updatedAt" := Num(p.updatedAt)]
  }

  /** `toObject` of a folder holding `p`, as a row. */
  function ObjectOf(p: FolderProps): Row {
    map["id" := Str(p.id), "url" := Str(p.url), "name" := Str(p.name),
        "path" := OptionalValue(p.path), "parentId" := OptionalValue(p.parentId),
        "status" := Str(StatusName(p.status)), "createdAt" := Num(p.createdAt),
        "updatedAt" := Num(p.updatedAt)]
  }

  /** `toObject` is `getCurrentState` plus the id, and the id is never
      part of the tracked state. */
  lemma ObjectIsStatePlusId(p: FolderProps)
    ensures ObjectOf(p) == StateOf(p)["id" := Str(p.id)]
    ensures "id" !in StateOf(p)
    ensures ObjectOf(p) - {"id"} == StateOf(p)
  {
    assert ObjectOf(p).Keys == StateOf(p)["id" := Str(p.id)].Keys;
    assert (ObjectOf(p) - {"id"}).Keys == StateOf(p).Keys;
  }

  /** `createNew`: id '0', PENDING, name 'Transfer' only when none is given
      (an empty name is kept), path '' when none is given. */
  function NewFolder(url: string, name: Option<string>, parentId: Option<string>, path: Option<string>, now: int): (p: FolderProps)
    ensures p.id == "0" && p.status == PENDING && p.url == url && p.parentId == parentId
    ensures name.Some? ==> p.name == name.value
    ensures name.None? ==> p.name == "Transfer"
    ensures p.path == Some(if path.Some? then path.value else "")
    ensures p.createdAt == now && p.updatedAt == now
  {
    FolderProps("0", url, name.GetOr("Transfer"), Some(path.GetOr("")), parentId, PENDING, now, now)
  }

  /** The folder's mutators. */
  datatype FolderOp = MarkScanning | MarkCompleted | MarkFailed | Rename(name: string)

  /** The folder after one mutator: a status mutator sets exactly its
      status whatever the previous one; `updateName` sets only the name. */
  function Step(p: FolderProps, op: FolderOp): FolderProps {
    match op
    case MarkScanning => p.(status := SCANNING)
    case MarkCompleted => p.(status := COMPLETED)
    case MarkFailed => p.(status := FAILED)
    case Rename(n) => p.(name := n)
  }

  function Run(p: FolderProps, ops: seq<FolderOp>): FolderProps
    decreases |ops|
  {
    if |ops| == 0 then p else Run(Step(p, ops[0]), ops[1..])
  }

  /** Running one more mutator is a step from where the run ended. */
  lemma {:induction false} RunSnoc(p: FolderProps, ops: seq<FolderOp>, op: FolderOp)
    ensures Run(p, ops + [op]) == Step(Run(p, ops), op)
    decreases |ops|
  {
    if |ops| == 0 {
      assert ops + [op] == [op];
    } else {
      assert (ops + [op])[1..] == ops[1..] + [op];
      RunSnoc(Step(p, ops[0]), ops[1..], op);
    }
  }

  /** The state properties a mutator can change. */
  function Touched(op: FolderOp): set<string> {
    if op.Rename? then {"name"} else {"status"}
  }

  /** Whatever mutators run, id, url, path, parentId, createdAt and
      updatedAt stay as they were. */
  lemma {:induction false} RunKeepsIdentity(p: FolderProps, ops: seq<FolderOp>)
    ensures var q := Run(p, ops);
      q.id == p.id && q.url == p.url && q.path == p.path && q.parentId == p.parentId &&
      q.createdAt == p.createdAt && q.updatedAt == p.updatedAt
    decreases |ops|
  {
    if |ops| > 0 {
      RunKeepsIdentity(Step(p, ops[0]), ops[1..]);
    }
  }

  /** No mutator sets PROCESSING: a folder is PROCESSING after a run only
      if it was before and every mutator of the run was a rename. */
  lemma {:induction false} NeverSetsProcessing(p: FolderProps, ops: seq<FolderOp>)
    ensures Run(p, ops).status == PROCESSING ==>
      p.status == PROCESSING && forall i :: 0 <= i < |ops| ==> ops[i].Rename?
    decreases |ops|
  {
    if |ops| > 0 {
      NeverSetsProcessing(Step(p, ops[0]), ops[1..]);
      if Run(p, ops).status == PROCESSING {
        forall i | 0 <= i < |ops| ensures ops[i].Rename? {
          if i > 0 {
            assert ops[1..][i - 1] == ops[i];
          }
        }
      }
    }
  }

  /** A mutator changes only the state properties it touches, so only
      those can appear in the folder's update clause. */
  lemma StepChangesOnlyTouched(p: FolderProps, op: FolderOp)
    ensures Changes(StateOf(p), StateOf(Step(p, op))).Keys <= Touched(op)
  {
    var c := Changes(StateOf(p), StateOf(Step(p, op)));
    forall k | k in c ensures k in Touched(op) {
      assert StateOf(Step(p, op))[k] != StateOf(p)[k];
    }
  }

  /** The domain object. The tracker holds the dirty-checking snapshot. */
  class FolderEntity {
    const id: string
    var url: string
    var name: string
    var path: Option<string>
    const parentId: Option<string>
    var status: TransferStatus
    const createdAt: int
    const updatedAt: int
    const tracker: Tracker

    /** The private constructor: copies the properties and takes the
        initial snapshot. */
    constructor(p: FolderProps)
      ensures Props() == p
      ensures fresh(tracker) && tracker.original == Some(StateOf(p))
    {
      id := p.id;
      url := p.url;
      name := p.name;
      path := p.path;
      parentId := p.parentId;
      status := p.status;
      createdAt := p.createdAt;
      updatedAt := p.updatedAt;
      tracker := new Tracker();
      new;
      tracker.SetInitialState(StateOf(p));
    }

    /** `toObject`. */
    function Props(): FolderProps
      reads this
    {
      FolderProps(id, url, name, path, parentId, status, createdAt, updatedAt)
    }

    /** `getCurrentState`. */
    function State(): Row
      reads this
    {
      StateOf(Props())
    }

    function IsDirty(): bool
      reads this, tracker
    {
      tracker.IsDirty(State())
    }

    method MarkAsScanning()
      modifies this
      ensures Props() == Step(old(Props()), MarkScanning)
    {
      status := SCANNING;
    }

    method MarkAsCompleted()
      modifies this
      ensures Props() == Step(old(Props()), MarkCompleted)
    {
      status := COMPLETED;
    }

    method MarkAsFailed()
      modifies this
      ensures Props() == Step(old(Props()), MarkFailed)
    {
      status := FAILED;
    }

    method UpdateName(newName: string)
      modifies this
      ensures Props() == Step(old(Props()), Rename(newName))
    {
      name := newName;
    }
  }

  /** `createNew`; `now` is the clock reading. A new folder is clean. */
  method CreateNew(url: string, name: Option<string>, parentId: Option<string>, path: Option<string>, now: int)
    returns (e: FolderEntity)
    ensures fresh(e) && fresh(e.tracker)
    ensures e.Props() == NewFolder(url, name, parentId, path, now)
    ensures !e.IsDirty()
  {
    e := new FolderEntity(NewFolder(url, name, parentId, path, now));
    NoChangesAgainstSelf(e.State());
  }

  /** `fromData`: a folder holding exactly the given properties, clean. */
  method FromData(p: FolderProps) returns (e: FolderEntity)
    ensures fresh(e) && fresh(e.tracker)
    ensures e.Props() == p && !e.IsDirty()
    ensures e.tracker.original == Some(StateOf(p))
  {
    e := new FolderEntity(p);
    NoChangesAgainstSelf(e.State());
  }
}
