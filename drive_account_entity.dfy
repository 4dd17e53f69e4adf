/** `DriveAccount`: a Google Drive account the service can upload to, with
    its status, storage figures and token expiry. Dates are milliseconds
    since the epoch and the storage figures, `bigint` in the source, are
    unbounded integers. */
module DriveAccount {
  import opened Wrappers
  import opened EntityBase

  /** `DriveAccountStatus`. */
  datatype AccountStatus = ACTIVE | INACTIVE | QUOTA_EXCEEDED | AUTH_ERROR

  function StatusName(s: AccountStatus): string {
    match s
    case ACTIVE => "ACTIVE"
    case INACTIVE => "INACTIVE"
    case QUOTA_EXCEEDED => "QUOTA_EXCEEDED"
    case AUTH_ERROR => "AUTH_ERROR"
  }

  /** The enum member with the given name, if any. */
  function ParseStatus(name: string): (r: Option<AccountStatus>)
    ensures r.Some? ==> StatusName(r.value) == name
    ensures r.None? ==> forall s :: StatusName(s) != name
  {
    if name == "ACTIVE" then Some(ACTIVE)
    else if name == "INACTIVE" then Some(INACTIVE)
    else if name == "QUOTA_EXCEEDED" then Some(QUOTA_EXCEEDED)
    else if name == "AUTH_ERROR" then Some(AUTH_ERROR)
    else None
  }

  /** Every status reads back from its stored name. */
  lemma ParseStatusName(s: AccountStatus)
    ensures ParseStatus(StatusName(s)) == Some(s)
  {
  }

  /** `IDriveAccount`; `tokenExpiresAt` is `None` where it is `null`. */
  datatype AccountProps = AccountProps(
    id: string, email: string, name: string, status: AccountStatus,
    storageUsed: int, storageTotal: int, tokenExpiresAt: Option<int>,
    createdAt: int, updatedAt: int)

  /** `getCurrentState` of an account holding `p`: every property but id. */
  function StateOf(p: AccountProps): Row {
    map["email" := Str(p.email), "name" := Str(p.name), "status" := Str(StatusName(p.status)),
        "storageUsed" := Num(p.storageUsed), "storageTotal" := Num(p.storageTotal),
        "tokenExpiresAt" := DateValue(p.tokenExpiresAt), "createdAt" := Num(p.createdAt),
        "updatedAt" := Num(p.updatedAt)]
  }

  /** `toObject` of an account holding `p`, as a row. */
  function ObjectOf(p: AccountProps): Row {
    map["id" := Str(p.id), "email" := Str(p.email), "name" := Str(p.name),
        "status" := Str(StatusName(p.status)), "storageUsed" := Num(p.storageUsed),
        "storageTotal" := Num(p.storageTotal), "tokenExpiresAt" := DateValue(p.tokenExpiresAt),
        "createdAt" := Num(p.createdAt), "updatedAt" := Num(p.updatedAt)]
  }

  /** `toObject` is `getCurrentState` plus the id; the id is never part of
      the tracked state. */
  lemma ObjectIsStatePlusId(p: AccountProps)
    ensures ObjectOf(p) == StateOf(p)["id" := Str(p.id)]
    ensures "id" !in StateOf(p)
    ensures ObjectOf(p) - {"id"} == StateOf(p)
  {
    assert ObjectOf(p).Keys == StateOf(p)["id" := Str(p.id)].Keys;
    assert (ObjectOf(p) - {"id"}).Keys == StateOf(p).Keys;
  }

  /** `create`: id '0', INACTIVE, no storage and no token; `now` is the one
      clock reading both dates take. */
  function NewAccount(email: string, name: string, now: int): (p: AccountProps)
    ensures p.id == "0" && p.email == email && p.name == name
  {
    AccountProps("0", email, name, INACTIVE, 0, 0, None, now, now)
  }

  // ------------------------------------------------------------ predicates

  /** `isTokenExpired` at clock reading `now`: a missing expiry counts as
      expired. */
  predicate TokenExpired(p: AccountProps, now: int) {
    p.tokenExpiresAt.None? || p.tokenExpiresAt.value < now
  }

  /** `hasSufficientSpace(required)`: never when the total is unknown (0);
      otherwise the free space must exceed the requirement strictly. */
  predicate SufficientSpace(p: AccountProps, required: int) {
    p.storageTotal != 0 && p.storageTotal - p.storageUsed > required
  }

  /** `isUsable`: active, with a token that has not expired. */
  predicate Usable(p: AccountProps, now: int) {
    p.status == ACTIVE && !TokenExpired(p, now)
  }

  /** A new account cannot be used and has no room for anything: it is
      inactive, has no token and reports no storage. */
  lemma NewAccountIsIdle(email: string, name: string, now: int, t: int, required: int)
    ensures var p := NewAccount(email, name, now);
      p.status == INACTIVE && p.storageUsed == 0 && p.storageTotal == 0 &&
      p.tokenExpiresAt.None? && p.createdAt == now && p.updatedAt == now
    ensures TokenExpired(NewAccount(email, name, now), t)
    ensures !Usable(NewAccount(email, name, now), t)
    ensures !SufficientSpace(NewAccount(email, name, now), required)
  {
  }

  /** Once expired, a token stays expired as the clock advances. */
  lemma ExpiryPersists(p: AccountProps, t: int, later: int)
    requires t <= later && TokenExpired(p, t)
    ensures TokenExpired(p, later) && !Usable(p, later)
  {
  }

  /** Room for a requirement is room for any smaller one. */
  lemma SpaceIsDownwardClosed(p: AccountProps, required: int, smaller: int)
    requires smaller <= required && SufficientSpace(p, required)
    ensures SufficientSpace(p, smaller)
  {
  }

  // -------------------------------------------------------------- mutators

  /** The account's mutators. `Deactivate(None)` is `deactivate()` with the
      default reason; `UpdateApi` carries the optional name and status of
      `markAsUpdateAPI`. */
  datatype AccountOp =
    | Activate
    | Deactivate(reason: Option<AccountStatus>)
    | UpdateStorage(used: int, total: int)
    | UpdateTokenInfo(expiresAt: int)
    | UpdateApi(newName: Option<string>, newStatus: Option<AccountStatus>)

  /** The account after one mutator run at clock reading `now`. Every
      mutator ends by refreshing `updatedAt`. */
  function Step(p: AccountProps, op: AccountOp, now: int): AccountProps {
    match op
    case Activate => p.(status := ACTIVE, updatedAt := now)
    case Deactivate(reason) => p.(status := reason.GetOr(INACTIVE), updatedAt := now)
    case UpdateStorage(used, total) => p.(storageUsed := used, storageTotal := total, updatedAt := now)
    case UpdateTokenInfo(t) => p.(tokenExpiresAt := Some(t), status := ACTIVE, updatedAt := now)
    case UpdateApi(n, s) => p.(name := n.GetOr(p.name), status := s.GetOr(p.status), updatedAt := now)
  }

  /** The properties a mutator may change. */
  function Touched(op: AccountOp): set<string> {
    match op
    case Activate => {"status", "updatedAt"}
    case Deactivate(_) => {"status", "updatedAt"}
    case UpdateStorage(_, _) => {"storageUsed", "storageTotal", "updatedAt"}
    case UpdateTokenInfo(_) => {"tokenExpiresAt", "status", "updatedAt"}
    case UpdateApi(_, _) => {"name", "status", "updatedAt"}
  }

  /** A mutator changes only the properties it touches, so only those can
      appear in the account's update clause; the id and email never do. */
  lemma StepChangesOnlyTouched(p: AccountProps, op: AccountOp, now: int)
    ensures Changes(StateOf(p), StateOf(Step(p, op, now))).Keys <= Touched(op)
    ensures "email" !in Changes(StateOf(p), StateOf(Step(p, op, now)))
  {
    var c := Changes(StateOf(p), StateOf(Step(p, op, now)));
    forall k | k in c ensures k in Touched(op) {
      assert StateOf(Step(p, op, now))[k] != StateOf(p)[k];
    }
  }

  /** `markAsUpdateAPI`: a given name or status replaces the old one, an
      absent one keeps it, and the email never changes. */
  lemma UpdateApiOverwritesGiven(p: AccountProps, n: Option<string>, s: Option<AccountStatus>, now: int)
    ensures var q := Step(p, UpdateApi(n, s), now);
      (n.Some? ==> q.name == n.value) && (n.None? ==> q.name == p.name) &&
      (s.Some? ==> q.status == s.value) && (s.None? ==> q.status == p.status) &&
      q.email == p.email && q.id == p.id && q.updatedAt == now
  {
  }

  /** After a token refresh the account is usable exactly until the new
      expiry, whatever its status was. */
  lemma UsableAfterTokenRefresh(p: AccountProps, expiresAt: int, now: int, t: int)
    ensures Usable(Step(p, UpdateTokenInfo(expiresAt), now), t) <==> t <= expiresAt
  {
  }

  /** `deactivate()` makes an account unusable; so does any reason but
      ACTIVE. */
  lemma DeactivatedIsUnusable(p: AccountProps, reason: Option<AccountStatus>, now: int, t: int)
    requires reason != Some(ACTIVE)
    ensures !Usable(Step(p, Deactivate(reason), now), t)
    ensures reason.None? ==> Step(p, Deactivate(reason), now).status == INACTIVE
  {
  }

  /** After `updateStorage(used, total)` the free-space check is decided by
      the new figures alone. */
  lemma SpaceAfterStorageUpdate(p: AccountProps, used: int, total: int, now: int, required: int)
    ensures SufficientSpace(Step(p, UpdateStorage(used, total), now), required) <==>
      total != 0 && total - used > required
  {
  }

  function Run(p: AccountProps, ops: seq<AccountOp>, now: int): AccountProps
    decreases |ops|
  {
    if |ops| == 0 then p else Run(Step(p, ops[0], now), ops[1..], now)
  }

  /** Whatever mutators run, id, email and createdAt stay as they were,
      and after at least one of them updatedAt is the clock reading. */
  lemma {:induction false} RunKeepsIdentity(p: AccountProps, ops: seq<AccountOp>, now: int)
    ensures var q := Run(p, ops, now);
      q.id == p.id && q.email == p.email && q.createdAt == p.createdAt &&
      (|ops| > 0 ==> q.updatedAt == now)
    decreases |ops|
  {
    if |ops| > 0 {
      RunKeepsIdentity(Step(p, ops[0], now), ops[1..], now);
    }
  }

  /** The domain object. The tracker holds the dirty-checking snapshot. */
  class AccountEntity {
    const id: string
    const email: string
    var name: string
    var status: AccountStatus
    var storageUsed: int
    var storageTotal: int
    var tokenExpiresAt: Option<int>
    const createdAt: int
    var updatedAt: int
    const tracker: Tracker

    /** The private constructor: copies the properties and takes the
        initial snapshot. */
    constructor(p: AccountProps)
      ensures Props() == p
      ensures fresh(tracker) && tracker.original == Some(StateOf(p))
    {
      id := p.id;
      email := p.email;
      name := p.name;
      status := p.status;
      storageUsed := p.storageUsed;
      storageTotal := p.storageTotal;
      tokenExpiresAt := p.tokenExpiresAt;
      createdAt := p.createdAt;
      updatedAt := p.updatedAt;
      tracker := new Tracker();
      new;
      tracker.SetInitialState(StateOf(p));
    }

    /** `toObject`. */
    function Props(): AccountProps
      reads this
    {
      AccountProps(id, email, name, status, storageUsed, storageTotal, tokenExpiresAt, createdAt, updatedAt)
    }

    /** `getCurrentState`. */
    function State(): Row
      reads this
    {
      StateOf(Props())
    }

    function IsDirty(): bool
      reads this, tracker
    {
      tracker.IsDirty(State())
    }

    /** `updateTimestamp`. */
    method Touch(now: int)
      modifies this
      ensures Props() == old(Props()).(updatedAt := now)
    {
      updatedAt := now;
    }

    method Activate(now: int)
      modifies this
      ensures Props() == Step(old(Props()), AccountOp.Activate, now)
    {
      status := ACTIVE;
      Touch(now);
    }

    method Deactivate(reason: Option<AccountStatus>, now: int)
      modifies this
      ensures Props() == Step(old(Props()), AccountOp.Deactivate(reason), now)
    {
      status := reason.GetOr(INACTIVE);
      Touch(now);
    }

    method UpdateStorage(used: int, total: int, now: int)
      modifies this
      ensures Props() == Step(old(Props()), AccountOp.UpdateStorage(used, total), now)
    {
      storageUsed := used;
      storageTotal := total;
      Touch(now);
    }

    /** `updateTokenInfo`: sets the expiry, then activates. */
    method UpdateTokenInfo(expiresAt: int, now: int)
      modifies this
      ensures Props() == Step(old(Props()), AccountOp.UpdateTokenInfo(expiresAt), now)
    {
      tokenExpiresAt := Some(expiresAt);
      Activate(now);
    }

    method MarkAsUpdateApi(newName: Option<string>, newStatus: Option<AccountStatus>, now: int)
      modifies this
      ensures Props() == Step(old(Props()), UpdateApi(newName, newStatus), now)
    {
      name := newName.GetOr(name);
      status := newStatus.GetOr(status);
      Touch(now);
    }
  }

  /** `create`; a new account is clean. */
  method Create(email: string, name: string, now: int) returns (e: AccountEntity)
    ensures fresh(e) && fresh(e.tracker)
    ensures e.Props() == NewAccount(email, name, now)
    ensures !e.IsDirty()
  {
    e := new AccountEntity(NewAccount(email, name, now));
    NoChangesAgainstSelf(e.State());
  }

  /** `fromData`: an account holding exactly the given properties, clean. */
  method FromData(p: AccountProps) returns (e: AccountEntity)
    ensures fresh(e) && fresh(e.tracker)
    ensures e.Props() == p && !e.IsDirty()
    ensures e.tracker.original == Some(StateOf(p))
  {
    e := new AccountEntity(p);
    NoChangesAgainstSelf(e.State());
  }
}
