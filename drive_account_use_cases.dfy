/** The drive-account use cases: create, get, update, delete and list,
    over the account repository. `now` is the clock reading an operation
    takes. */
module DriveAccountUseCases {
  import opened Wrappers
  import opened EntityBase
  import opened RepositoryBase
  import opened DriveAccount
  import opened DriveAccountRepository
  import DriveAccountDto

  function NotFoundMessage(id: string): string {
    "DriveAccount with ID '" + id + "' not found."
  }

  function ConflictMessage(email: string): string {
    "DriveAccount with email '" + email + "' already exists."
  }

  const DELETE_MESSAGE := "One or more drive accounts not found or could not be deleted."

  /** `save`: a create for an entity whose id is '0', an update otherwise. */
  method Save(repo: AccountRepository, entity: AccountEntity) returns (r: Result<AccountEntity>)
    requires repo.table.Valid()
    modifies repo.table
    ensures repo.table.Valid()
    ensures RouteOf(entity.id) == CreatePath ==>
      r.Ok? && r.value.Props() == entity.Props().(id := IdOf(old(repo.table.next))) &&
      repo.table.records == old(repo.table.records) + [Record(r.value.id, StateOf(entity.Props()))]
    ensures RouteOf(entity.id) == UpdatePath && !entity.IsDirty() ==>
      r == Ok(entity) && repo.table.records == old(repo.table.records)
    ensures RouteOf(entity.id) == UpdatePath && old(repo.table.FindUnique(entity.id)).Some? ==>
      r.Ok? &&
      repo.table.FindUnique(entity.id) == Some(Record(entity.id,
        Apply(old(repo.table.FindUnique(entity.id)).value.data, entity.tracker.ChangesOf(entity.State()))))
    ensures RouteOf(entity.id) == UpdatePath && entity.IsDirty() && old(repo.table.FindUnique(entity.id)).Some? ==>
      r.value.Props() == AccountFromRecord(Record(entity.id,
        Apply(old(repo.table.FindUnique(entity.id)).value.data, entity.tracker.ChangesOf(entity.State()))))
  {
    if RouteOf(entity.id) == CreatePath {
      var saved := repo.Create(entity);
      r := Ok(saved);
    } else {
      r := repo.Update(entity);
    }
  }

  /** `CreateDriveAccountUseCase.execute`: an email already on record is a
      conflict and nothing is written; otherwise a new account built by
      `create` is saved, which takes the create path. */
  method CreateDriveAccount(repo: AccountRepository, email: string, name: string, now: int)
    returns (r: Result<AccountEntity>)
    requires repo.table.Valid()
    modifies repo.table
    ensures repo.table.Valid()
    ensures old(FindByEmail(repo.table, email)).Some? ==>
      r == Err(ConflictMessage(email)) && repo.table.records == old(repo.table.records)
    ensures old(FindByEmail(repo.table, email)).None? ==>
      r.Ok? && r.value.Props() == NewAccount(email, name, now).(id := IdOf(old(repo.table.next))) &&
      repo.table.records == old(repo.table.records) + [Record(r.value.id, StateOf(NewAccount(email, name, now)))]
    ensures UniqueEmails(old(repo.table.records)) ==> UniqueEmails(repo.table.records)
  {
    var existing := FindByEmail(repo.table, email);
    if existing.Some? {
      return Err(ConflictMessage(email));
    }
    var account := DriveAccount.Create(email, name, now);
    r := Save(repo, account);
    CreateKeepsEmailsUnique(old(repo.table.records), r.value.id, StateOf(NewAccount(email, name, now)), email);
  }

  /** After a successful create the email finds the new account, and
      only it. */
  lemma CreatedAccountIsFoundByEmail(rs: seq<Record>, id: string, email: string, name: string, now: int)
    requires forall i :: 0 <= i < |rs| ==> Column(rs[i], "email") != Str(email)
    ensures var rec := Record(id, StateOf(NewAccount(email, name, now)));
      Filter(rs + [rec], EqualsEmail(email)) == [rec] &&
      AccountFromRecord(rec) == NewAccount(email, name, now).(id := id)
  {
    var p := NewAccount(email, name, now);
    var rec := Record(id, StateOf(p));
    EmailColumnOfState(id, p);
    FilterFindsOnlyLast(rs, rec, EqualsEmail(email));
    AccountCreateLoadsBack(id, p);
  }

  lemma EmailColumnOfState(id: string, p: AccountProps)
    ensures Column(Record(id, StateOf(p)), "email") == Str(p.email)
  {
  }

  /** `GetDriveAccountUseCase.execute`: the account with exactly that id,
      or the not-found error. It reads only. */
  function GetDriveAccount(table: Table, id: string): (r: Result<AccountProps>)
    reads table
    ensures r.Err? <==> forall i :: 0 <= i < |table.records| ==> table.records[i].id != id
    ensures r.Err? ==> r.message == NotFoundMessage(id)
    ensures r.Ok? ==> r.value.id == id && exists i :: 0 <= i < |table.records| && r.value == AccountFromRecord(table.records[i])
  {
    match table.FindUnique(id)
    case None => Err(NotFoundMessage(id))
    case Some(rec) =>
      var i :| 0 <= i < |table.records| && table.records[i] == rec;
      Ok(AccountFromRecord(rec))
  }

  /** `UpdateDriveAccountUseCase.execute`: a missing account is an error and
      nothing is written; otherwise the given name and status are applied
      and saved through the update path, and the stored account, reloaded,
      is exactly the account with those changes. */
  method UpdateDriveAccount(repo: AccountRepository, id: string, input: DriveAccountDto.UpdateAccountInput, now: int)
    returns (r: Result<AccountEntity>)
    requires repo.table.Valid()
    modifies repo.table
    ensures repo.table.Valid()
    ensures old(repo.table.FindUnique(id)).None? ==>
      r == Err(NotFoundMessage(id)) && repo.table.records == old(repo.table.records)
    ensures old(repo.table.FindUnique(id)).Some? && id != "0" ==>
      var after := Step(AccountFromRecord(old(repo.table.FindUnique(id)).value), UpdateApi(input.name, input.status), now);
      r.Ok? && r.value.Props() == after &&
      repo.table.FindUnique(id).Some? && AccountFromRecord(repo.table.FindUnique(id).value) == after
  {
    var found := repo.FindById(id);
    if found.None? {
      return Err(NotFoundMessage(id));
    }
    var entity := found.value;
    ghost var rec := repo.table.FindUnique(id).value;
    entity.MarkAsUpdateApi(input.name, input.status, now);
    ghost var after := entity.Props();
    r := Save(repo, entity);
    if id != "0" {
      AccountReloadsAfterUpdate(rec, after);
      RunKeepsIdentity(AccountFromRecord(rec), [UpdateApi(input.name, input.status)], now);
      assert after.id == id;
      if !entity.IsDirty() {
        NoChangesReloads(rec, after);
      }
    }
  }

  /** A clean entity's record already loads as the entity. */
  lemma NoChangesReloads(rec: Record, after: AccountProps)
    requires after.id == rec.id
    requires Changes(StateOf(AccountFromRecord(rec)), StateOf(after)) == map[]
    ensures AccountFromRecord(rec) == after
  {
    AccountReloadsAfterUpdate(rec, after);
    assert Apply(rec.data, map[]) == rec.data;
  }

  /** `DeleteDriveAccountsUseCase.execute`: the listed accounts are removed;
      it fails exactly when some id was listed and none of them was
      stored, so an empty list or a partial deletion succeeds. */
  method DeleteDriveAccounts(repo: AccountRepository, ids: seq<string>) returns (r: Result<()>)
    requires repo.table.Valid()
    modifies repo.table
    ensures repo.table.Valid()
    ensures repo.table.records == Without(old(repo.table.records), set x | x in ids)
    ensures r.Err? <==> |ids| > 0 && forall i :: 0 <= i < |old(repo.table.records)| ==> old(repo.table.records)[i].id !in ids
    ensures r.Err? ==> r.message == DELETE_MESSAGE
  {
    var count := repo.DeleteByIds(ids);
    WithoutKeepsAllIff(old(repo.table.records), set x | x in ids);
    if count == 0 && |ids| > 0 {
      return Err(DELETE_MESSAGE);
    }
    r := Ok(());
  }

  /** The filter `ListDriveAccountsUseCase` hands to the repository: skip
      `(page - 1) * limit`, take `limit`, and the rest passed through. */
  function ListFilterOf(q: DriveAccountDto.ListQuery): ListFilter {
    ListFilter((q.page - 1) * q.limit, q.limit, q.status, q.search, q.orderBy, q.order)
  }

  /** `ListDriveAccountsUseCase.execute`. */
  function ListDriveAccounts(table: Table, q: DriveAccountDto.ListQuery): (r: Result<(seq<AccountProps>, nat)>)
    reads table
    ensures r.Ok? ==> |r.value.0| <= q.limit || q.limit < 0
    ensures r.Ok? ==> r.value.1 == table.Count(AccountWhere(q.status, q.search))
    ensures r.Err? <==> (q.page - 1) * q.limit < 0
  {
    FindManyWithCount(table, ListFilterOf(q))
  }

  /** The first page skips nothing, and the next page starts where this
      one ends. */
  lemma PagingArithmetic(q: DriveAccountDto.ListQuery)
    ensures q.page == 1 ==> ListFilterOf(q).skip == 0
    ensures ListFilterOf(q.(page := q.page + 1)).skip == ListFilterOf(q).skip + ListFilterOf(q).take
    ensures ListFilterOf(q).take == q.limit
  {
  }

  /** Consecutive pages of a list fit together: a page followed by the
      next is the double-size page at the same offset. */
  lemma {:induction false} PagesAdjoin(rs: seq<Record>, skip: int, take: int)
    requires skip >= 0 && take >= 0
    ensures Page(rs, skip, Some(take)).Ok? && Page(rs, skip + take, Some(take)).Ok?
    ensures Page(rs, skip, Some(take)).value + Page(rs, skip + take, Some(take)).value ==
      Page(rs, skip, Some(2 * take)).value
  {
    var n := |rs|;
    var lo := if skip <= n then skip else n;
    var mid := if lo + take <= n then lo + take else n;
    var hi := if lo + 2 * take <= n then lo + 2 * take else n;
    assert Page(rs, skip, Some(take)).value == rs[lo..mid];
    var lo2 := if skip + take <= n then skip + take else n;
    assert lo2 == mid;
    var hi2 := if lo2 + take <= n then lo2 + take else n;
    assert hi2 == hi;
    assert Page(rs, skip + take, Some(take)).value == rs[mid..hi];
    assert Page(rs, skip, Some(2 * take)).value == rs[lo..hi];
    assert rs[lo..mid] + rs[mid..hi] == rs[lo..hi];
  }

  /** Listing page `p` and then page `p + 1` of the same query gives, in
      order, the accounts of the double-size page at the first offset. */
  lemma ListPagesAdjoin(table: Table, q: DriveAccountDto.ListQuery)
    requires q.page >= 1 && q.limit >= 0
    ensures ListDriveAccounts(table, q).Ok? && ListDriveAccounts(table, q.(page := q.page + 1)).Ok?
    ensures var f := ListFilterOf(q);
      ListDriveAccounts(table, q).value.0 + ListDriveAccounts(table, q.(page := q.page + 1)).value.0 ==
      AccountsOf(PageRecords(table, f.(take := 2 * q.limit)).value)
  {
    var f := ListFilterOf(q);
    var rs := SortBy(By(q.orderBy, q.order), Filter(table.records, AccountWhere(q.status, q.search)));
    ProductNonNegative(q.page - 1, q.limit);
    PagesAdjoin(rs, f.skip, q.limit);
    PagingArithmetic(q);
    var a := Page(rs, f.skip, Some(q.limit)).value;
    var b := Page(rs, f.skip + q.limit, Some(q.limit)).value;
    assert AccountsOf(a) + AccountsOf(b) == AccountsOf(a + b);
  }

  /** As written, the list schema accepts page 0, and listing page 0 of
      ten is refused by the store: an internal error, not a validation
      error. */
  lemma PageZeroFails(table: Table)
    ensures var parsed := DriveAccountDto.ParseListQuery(DriveAccountDto.NO_QUERY.(page := Some("0")));
      parsed.Accepted? && parsed.value.page == 0 && ListDriveAccounts(table, parsed.value).Err?
  {
    DriveAccountDto.NoLowerBounds(0, 10);
    assert Strings.IntToString(0) == "0";
  }

  /** With the lower bounds, every accepted query lists without error. */
  lemma BoundedQueryLists(table: Table, q: DriveAccountDto.RawListQuery)
    requires DriveAccountDto.ParseListQueryBounded(q).Accepted?
    ensures ListDriveAccounts(table, DriveAccountDto.ParseListQueryBounded(q).value).Ok?
  {
    var v := DriveAccountDto.ParseListQueryBounded(q).value;
    ProductNonNegative(v.page - 1, v.limit);
  }

  lemma ProductNonNegative(a: int, b: int)
    requires a >= 0 && b >= 0
    ensures a * b >= 0
  {
  }
}
