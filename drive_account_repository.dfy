/** `PrismaDriveAccountRepository`: the record/entity mappings, the
    inherited base operations the use cases call, `findByEmail` and the
    filtered, paged listing with its total. */
module DriveAccountRepository {
  import opened Wrappers
  import opened Strings
  import opened EntityBase
  import opened RepositoryBase
  import opened DriveAccount

  function StatusColumn(rec: Record): AccountStatus {
    ParseStatus(StrColumn(rec, "status")).GetOr(INACTIVE)
  }

  /** `fromData`: every column of the record, as stored. */
  function AccountFromRecord(rec: Record): (p: AccountProps)
    ensures p.id == rec.id
    ensures Column(rec, "email").Str? ==> p.email == Column(rec, "email").s
    ensures Column(rec, "name").Str? ==> p.name == Column(rec, "name").s
    ensures Column(rec, "tokenExpiresAt").Num? <==> p.tokenExpiresAt.Some?
  {
    AccountProps(rec.id, StrColumn(rec, "email"), StrColumn(rec, "name"), StatusColumn(rec),
      NumColumn(rec, "storageUsed"), NumColumn(rec, "storageTotal"),
      DateColumn(rec, "tokenExpiresAt"), NumColumn(rec, "createdAt"), NumColumn(rec, "updatedAt"))
  }

  /** `mapEntityToCreateInput`: `toObject` minus id, which the store writes
      whole. */
  function AccountCreateInput(p: AccountProps): (input: Row)
    ensures "id" !in input
    ensures input == StateOf(p) && Defined(input) == input
  {
    ObjectIsStatePlusId(p);
    var input := ObjectOf(p) - {"id"};
    assert Defined(input).Keys == input.Keys;
    input
  }

  /** An account created from its create input loads back as itself, with
      the id the store gave it. */
  lemma AccountCreateLoadsBack(id: string, p: AccountProps)
    ensures AccountFromRecord(Record(id, Defined(AccountCreateInput(p)))) == p.(id := id)
  {
    ParseStatusName(p.status);
  }

  lemma StatusColumnAfter(rec: Record, before: Row, after: Row, b: AccountStatus, x: AccountStatus)
    requires "status" in before && before["status"] == Str(StatusName(b))
    requires "status" in after && after["status"] == Str(StatusName(x))
    ensures StatusColumn(Record(rec.id, Apply(rec.data, Changes(before, after)))) ==
      if x != b then x else StatusColumn(rec)
  {
    ColumnAfterChanges(rec.data, before, after, "status");
    ParseStatusName(x);
    ParseStatusName(b);
  }

  /** Writing a loaded account's changes back to its record and loading it
      again gives the account as it now is: the update round trip. */
  lemma AccountReloadsAfterUpdate(rec: Record, after: AccountProps)
    ensures var before := AccountFromRecord(rec);
      AccountFromRecord(Record(rec.id, Apply(rec.data, Changes(StateOf(before), StateOf(after)))))
      == after.(id := rec.id)
  {
    ReloadsIdentity(rec, after);
    ReloadsStatus(rec, after);
    ReloadsTimes(rec, after);
    ReloadsStorage(rec, after);
  }

  /** The record after writing the changes from the loaded account to
      `after`. */
  function Reloaded(rec: Record, after: AccountProps): Record {
    Record(rec.id, Apply(rec.data, Changes(StateOf(AccountFromRecord(rec)), StateOf(after))))
  }

  lemma ReloadsIdentity(rec: Record, after: AccountProps)
    ensures var a := AccountFromRecord(Reloaded(rec, after));
      a.email == after.email && a.name == after.name
  {
    var sb := StateOf(AccountFromRecord(rec));
    var sa := StateOf(after);
    StrColumnAfter(rec, sb, sa, "email", after.email);
    StrColumnAfter(rec, sb, sa, "name", after.name);
  }

  lemma ReloadsStatus(rec: Record, after: AccountProps)
    ensures AccountFromRecord(Reloaded(rec, after)).status == after.status
  {
    var before := AccountFromRecord(rec);
    StatusColumnAfter(rec, StateOf(before), StateOf(after), before.status, after.status);
  }

  lemma ReloadsTimes(rec: Record, after: AccountProps)
    ensures var a := AccountFromRecord(Reloaded(rec, after));
      a.createdAt == after.createdAt && a.updatedAt == after.updatedAt
  {
    var sb := StateOf(AccountFromRecord(rec));
    var sa := StateOf(after);
    NumColumnAfter(rec, sb, sa, "createdAt", after.createdAt);
    NumColumnAfter(rec, sb, sa, "updatedAt", after.updatedAt);
  }

  lemma ReloadsStorage(rec: Record, after: AccountProps)
    ensures var a := AccountFromRecord(Reloaded(rec, after));
      a.storageUsed == after.storageUsed && a.storageTotal == after.storageTotal &&
      a.tokenExpiresAt == after.tokenExpiresAt
  {
    var before := AccountFromRecord(rec);
    var sb := StateOf(before);
    var sa := StateOf(after);
    NumColumnAfter(rec, sb, sa, "storageUsed", after.storageUsed);
    NumColumnAfter(rec, sb, sa, "storageTotal", after.storageTotal);
    DateColumnAfter(rec, sb, sa, "tokenExpiresAt", after.tokenExpiresAt);
    assert sa["tokenExpiresAt"] != Get(sb, "tokenExpiresAt") <==> after.tokenExpiresAt != before.tokenExpiresAt;
  }

  function AccountsOf(rs: seq<Record>): (accounts: seq<AccountProps>)
    ensures |accounts| == |rs|
    ensures forall i :: 0 <= i < |rs| ==> accounts[i] == AccountFromRecord(rs[i])
  {
    seq(|rs|, i requires 0 <= i < |rs| => AccountFromRecord(rs[i]))
  }

  // ------------------------------------------------------------ findByEmail

  /** `where: { email }`. */
  function EqualsEmail(email: string): Where {
    Equals("email", Str(email))
  }

  /** `findUnique({ where: { email } })`: null when no record has the
      email. The column is unique in the database; here the first record
      holding it is the one found. */
  function FindByEmail(table: Table, email: string): (r: Option<AccountProps>)
    reads table
    ensures r.None? <==> forall i :: 0 <= i < |table.records| ==> Column(table.records[i], "email") != Str(email)
    ensures r.Some? ==> r.value.email == email
    ensures r.Some? ==> exists i :: 0 <= i < |table.records| && r.value == AccountFromRecord(table.records[i])
  {
    var rs := Filter(table.records, EqualsEmail(email));
    if |rs| == 0 then
      assert forall i :: 0 <= i < |table.records| ==> !Matches(EqualsEmail(email), table.records[i]) by {
        forall i | 0 <= i < |table.records| ensures !Matches(EqualsEmail(email), table.records[i]) {
          assert table.records[i] in table.records;
        }
      }
      None
    else
      assert rs[0] in rs;
      var i :| 0 <= i < |table.records| && table.records[i] == rs[0];
      Some(AccountFromRecord(rs[0]))
  }

  // ------------------------------------------------------- findManyWithCount

  /** The `where` clause of `findManyWithCount`: a status filter only when a
      status is given, and a case-insensitive search on name or email only
      when the search text is truthy (not empty). */
  function AccountWhere(status: Option<AccountStatus>, search: Option<string>): Where {
    var byStatus := if status.Some? then Equals("status", Str(StatusName(status.value))) else Any;
    var bySearch :=
      if search.Some? && search.value != "" then
        AnyOf(ContainsInsensitive("name", search.value), ContainsInsensitive("email", search.value))
      else Any;
    AllOf(byStatus, bySearch)
  }

  /** `s` contains `needle` when both are lower-cased. */
  predicate ContainsIgnoringCase(s: string, needle: string) {
    Contains(ToLower(s), ToLower(needle))
  }

  /** A record is listed exactly when it has the given status (if any) and
      its name or email contains the search text, ignoring case (if any). */
  lemma AccountWhereSelects(status: Option<AccountStatus>, search: Option<string>, rec: Record)
    requires Column(rec, "name").Str? && Column(rec, "email").Str?
    ensures var p := AccountFromRecord(rec);
      Matches(AccountWhere(status, search), rec) <==>
        (status.None? || Column(rec, "status") == Str(StatusName(status.value))) &&
        (search.None? || search.value == "" ||
         ContainsIgnoringCase(p.name, search.value) || ContainsIgnoringCase(p.email, search.value))
  {
    var p := AccountFromRecord(rec);
    assert p.name == Column(rec, "name").s && p.email == Column(rec, "email").s;
    if search.Some? && search.value != "" {
      var q := search.value;
      assert Matches(AnyOf(ContainsInsensitive("name", q), ContainsInsensitive("email", q)), rec) <==>
        ContainsIgnoringCase(p.name, q) || ContainsIgnoringCase(p.email, q);
    }
  }

  /** A status filter on a well-formed status column selects the accounts
      with that status. */
  lemma StatusFilterSelectsStatus(status: AccountStatus, rec: Record)
    requires Column(rec, "status").Str? && ParseStatus(Column(rec, "status").s).Some?
    ensures Matches(AccountWhere(Some(status), None), rec) <==> AccountFromRecord(rec).status == status
  {
    ParseStatusName(status);
  }

  /** The filter of `findManyWithCount`, as the use case builds it. */
  datatype ListFilter = ListFilter(
    skip: int, take: int, status: Option<AccountStatus>, search: Option<string>,
    orderBy: string, order: Direction)

  /** The records of one page: the matching records in the asked order,
      `take` of them after `skip`. A negative skip is refused by the store. */
  function PageRecords(table: Table, f: ListFilter): (r: Result<seq<Record>>)
    reads table
    ensures r.Err? <==> f.skip < 0
    ensures r.Ok? && f.take >= 0 ==> |r.value| <= f.take
  {
    table.FindMany(AccountWhere(f.status, f.search), By(f.orderBy, f.order), f.skip, Some(f.take))
  }

  /** `findManyWithCount`: the page and the total number of matching
      accounts, both under the same `where` clause. */
  function FindManyWithCount(table: Table, f: ListFilter): (r: Result<(seq<AccountProps>, nat)>)
    reads table
    ensures r.Err? <==> f.skip < 0
    ensures r.Ok? ==> r.value.1 == table.Count(AccountWhere(f.status, f.search))
    ensures r.Ok? ==> r.value.0 == AccountsOf(PageRecords(table, f).value)
  {
    match PageRecords(table, f)
    case Err(e) => Err(e)
    case Ok(rs) => Ok((AccountsOf(rs), table.Count(AccountWhere(f.status, f.search))))
  }

  /** The total does not depend on paging: two filters that differ only in
      skip, take and order report the same total. */
  lemma TotalIgnoresPaging(table: Table, f: ListFilter, g: ListFilter)
    requires f.status == g.status && f.search == g.search
    requires FindManyWithCount(table, f).Ok? && FindManyWithCount(table, g).Ok?
    ensures FindManyWithCount(table, f).value.1 == FindManyWithCount(table, g).value.1
  {
  }

  /** Every record of a page is a stored record that matches the filter,
      the page is in the asked order, and it holds no more records than the
      total. */
  lemma PageMatchesAndIsSorted(table: Table, f: ListFilter)
    requires PageRecords(table, f).Ok?
    ensures var page := PageRecords(table, f).value;
      (forall x :: x in page ==> x in table.records && Matches(AccountWhere(f.status, f.search), x)) &&
      SortedBy(By(f.orderBy, f.order), page) &&
      |page| <= table.Count(AccountWhere(f.status, f.search))
  {
    PageOfListing(table.records, AccountWhere(f.status, f.search), By(f.orderBy, f.order), f.skip, Some(f.take));
  }

  // ------------------------------------------------------------ the class

  class AccountRepository {
    const table: Table

    constructor(table: Table)
      ensures this.table == table
    {
      this.table := table;
    }

    /** `findById`: null when no record has the id, otherwise the loaded
        account, clean. */
    method FindById(id: string) returns (e: Option<AccountEntity>)
      ensures table.FindUnique(id).None? ==> e.None?
      ensures table.FindUnique(id).Some? ==>
        e.Some? && fresh(e.value) && fresh(e.value.tracker) && !e.value.IsDirty() &&
        e.value.Props() == AccountFromRecord(table.FindUnique(id).value) &&
        e.value.tracker.original == Some(StateOf(e.value.Props()))
    {
      match table.FindUnique(id)
      case None => e := None;
      case Some(rec) =>
        var a := FromData(AccountFromRecord(rec));
        e := Some(a);
    }

    /** `create`: one new record holding the account's state; the stored
        account comes back with its new id. */
    method Create(entity: AccountEntity) returns (saved: AccountEntity)
      requires table.Valid()
      modifies table
      ensures table.Valid()
      ensures table.records == old(table.records) + [Record(IdOf(old(table.next)), StateOf(entity.Props()))]
      ensures saved.id == IdOf(old(table.next)) && saved.id != "0"
      ensures forall i :: 0 <= i < |old(table.records)| ==> old(table.records)[i].id != saved.id
      ensures saved.Props() == entity.Props().(id := saved.id)
      ensures fresh(saved) && fresh(saved.tracker) && !saved.IsDirty()
    {
      var rec := table.Create(AccountCreateInput(entity.Props()));
      IdOfInjective(0, old(table.next));
      AccountCreateLoadsBack(rec.id, entity.Props());
      saved := FromData(AccountFromRecord(rec));
    }

    /** `update`: a clean account is returned as it is and nothing is
        written; a dirty one has only its changed columns written and is
        reloaded from its record; a missing record fails. */
    method Update(entity: AccountEntity) returns (r: Result<AccountEntity>)
      requires table.Valid()
      modifies table
      ensures table.Valid() && table.next == old(table.next)
      ensures !entity.IsDirty() ==> r == Ok(entity) && table.records == old(table.records)
      ensures entity.IsDirty() && old(table.FindUnique(entity.id)).None? ==>
        r.Err? && table.records == old(table.records)
      ensures entity.IsDirty() && old(table.FindUnique(entity.id)).Some? ==>
        table.records == UpdateIn(old(table.records), entity.id, entity.tracker.ChangesOf(entity.State())) &&
        r.Ok? && fresh(r.value) && !r.value.IsDirty() &&
        r.value.Props() == AccountFromRecord(Record(entity.id,
          Apply(old(table.FindUnique(entity.id)).value.data, entity.tracker.ChangesOf(entity.State()))))
      ensures old(table.FindUnique(entity.id)).Some? ==>
        r.Ok? &&
        table.FindUnique(entity.id) == Some(Record(entity.id,
          Apply(old(table.FindUnique(entity.id)).value.data, entity.tracker.ChangesOf(entity.State()))))
    {
      var u := UpdateEntity(table, entity.id, entity.tracker, entity.State());
      match u
      case Err(msg) => r := Err(msg);
      case Ok(None) => r := Ok(entity);
      case Ok(Some(rec)) =>
        var a := FromData(AccountFromRecord(rec));
        r := Ok(a);
    }

    /** `deleteByIds`: removes every account whose id is listed and returns
        how many went. */
    method DeleteByIds(ids: seq<string>) returns (count: nat)
      requires table.Valid()
      modifies table
      ensures table.Valid()
      ensures table.records == Without(old(table.records), set x | x in ids)
      ensures count == |old(table.records)| - |table.records| && count <= |ids|
    {
      count := table.DeleteMany(ids);
    }
  }

  /** Deleting removes nothing exactly when no stored id is listed. */
  lemma {:induction false} WithoutKeepsAllIff(rs: seq<Record>, ids: set<string>)
    ensures |Without(rs, ids)| == |rs| <==> forall i :: 0 <= i < |rs| ==> rs[i].id !in ids
  {
    if |rs| > 0 {
      WithoutKeepsAllIff(rs[1..], ids);
      if rs[0].id !in ids {
        assert (forall i :: 0 <= i < |rs| ==> rs[i].id !in ids) <==>
          (forall i :: 0 <= i < |rs[1..]| ==> rs[1..][i].id !in ids) by {
          forall i | 1 <= i < |rs| ensures rs[i] == rs[1..][i - 1] {
          }
        }
      }
    }
  }
}
