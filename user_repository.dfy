/** `PrismaUserRepository`: the record/user mappings, `findByEmail` and
    the inherited `save` with its create and update paths. */
module UserRepository {
  import opened Wrappers
  import opened EntityBase
  import opened RepositoryBase
  import opened User

  /** The role column; a value outside the enum cannot occur under the
      database schema and reads as USER. */
  function RoleColumn(rec: Record): Role {
    ParseRole(StrColumn(rec, "role")).GetOr(USER)
  }

  /** `fromData`: every column of the record, as stored. */
  function UserFromRecord(rec: Record): (p: UserProps)
    ensures p.id == rec.id
    ensures Column(rec, "email").Str? ==> p.email == Column(rec, "email").s
    ensures Column(rec, "password").Str? <==> p.password.Some?
    ensures Column(rec, "emailVerified").Num? <==> p.emailVerified.Some?
  {
    UserProps(rec.id, StrColumn(rec, "email"), NullableColumn(rec, "name"), NullableColumn(rec, "image"),
      DateColumn(rec, "emailVerified"), RoleColumn(rec), NullableColumn(rec, "password"),
      NumColumn(rec, "createdAt"), NumColumn(rec, "updatedAt"))
  }

  /** `mapEntityToCreateInput`: `toObject` minus id, written whole. */
  function UserCreateInput(p: UserProps): (input: Row)
    ensures "id" !in input
    ensures input == StateOf(p) && Defined(input) == input
  {
    ObjectIsStatePlusId(p);
    var input := ObjectOf(p) - {"id"};
    assert Defined(input).Keys == input.Keys;
    input
  }

  /** A user created from its create input loads back as itself, with the
      id the store gave it. */
  lemma UserCreateLoadsBack(id: string, p: UserProps)
    ensures UserFromRecord(Record(id, Defined(UserCreateInput(p)))) == p.(id := id)
  {
    ParseRoleName(p.role);
  }

  lemma RoleColumnAfter(rec: Record, before: Row, after: Row, b: Role, x: Role)
    requires "role" in before && before["role"] == Str(RoleName(b))
    requires "role" in after && after["role"] == Str(RoleName(x))
    ensures RoleColumn(Record(rec.id, Apply(rec.data, Changes(before, after)))) ==
      if x != b then x else RoleColumn(rec)
  {
    ColumnAfterChanges(rec.data, before, after, "role");
    ParseRoleName(x);
    ParseRoleName(b);
  }

  /** Writing a loaded user's changes back to its record and loading it
      again gives the user as it now is. */
  lemma UserReloadsAfterUpdate(rec: Record, after: UserProps)
    ensures var before := UserFromRecord(rec);
      UserFromRecord(Record(rec.id, Apply(rec.data, Changes(StateOf(before), StateOf(after)))))
      == after.(id := rec.id)
  {
    ReloadsText(rec, after);
    ReloadsAccess(rec, after);
    ReloadsTimes(rec, after);
  }

  /** The record after writing the changes from the loaded user to `after`. */
  function Reloaded(rec: Record, after: UserProps): Record {
    Record(rec.id, Apply(rec.data, Changes(StateOf(UserFromRecord(rec)), StateOf(after))))
  }

  lemma ReloadsText(rec: Record, after: UserProps)
    ensures var u := UserFromRecord(Reloaded(rec, after));
      u.email == after.email && u.name == after.name && u.image == after.image
  {
    var before := UserFromRecord(rec);
    var sb := StateOf(before);
    var sa := StateOf(after);
    StrColumnAfter(rec, sb, sa, "email", after.email);
    NullableColumnAfter(rec, sb, sa, "name", after.name);
    assert sa["name"] != Get(sb, "name") <==> after.name != before.name;
    NullableColumnAfter(rec, sb, sa, "image", after.image);
    assert sa["image"] != Get(sb, "image") <==> after.image != before.image;
  }

  lemma ReloadsAccess(rec: Record, after: UserProps)
    ensures var u := UserFromRecord(Reloaded(rec, after));
      u.emailVerified == after.emailVerified && u.role == after.role && u.password == after.password
  {
    var before := UserFromRecord(rec);
    var sb := StateOf(before);
    var sa := StateOf(after);
    DateColumnAfter(rec, sb, sa, "emailVerified", after.emailVerified);
    assert sa["emailVerified"] != Get(sb, "emailVerified") <==> after.emailVerified != before.emailVerified;
    RoleColumnAfter(rec, sb, sa, before.role, after.role);
    NullableColumnAfter(rec, sb, sa, "password", after.password);
    assert sa["password"] != Get(sb, "password") <==> after.password != before.password;
  }

  lemma ReloadsTimes(rec: Record, after: UserProps)
    ensures var u := UserFromRecord(Reloaded(rec, after));
      u.createdAt == after.createdAt && u.updatedAt == after.updatedAt
  {
    var before := UserFromRecord(rec);
    var sb := StateOf(before);
    var sa := StateOf(after);
    NumColumnAfter(rec, sb, sa, "createdAt", after.createdAt);
    NumColumnAfter(rec, sb, sa, "updatedAt", after.updatedAt);
  }

  /** `where: { email }`. */
  function EqualsEmail(email: string): Where {
    Equals("email", Str(email))
  }

  /** `findByEmail`: null when no record has the email, otherwise the user
      loaded from the first record holding it (the column is unique in the
      database). */
  function FindByEmail(table: Table, email: string): (r: Option<UserProps>)
    reads table
    ensures r.None? <==> forall i :: 0 <= i < |table.records| ==> Column(table.records[i], "email") != Str(email)
    ensures r.Some? ==> r.value.email == email
    ensures r.Some? ==> exists i :: 0 <= i < |table.records| && r.value == UserFromRecord(table.records[i])
  {
    var rs := Filter(table.records, EqualsEmail(email));
    if |rs| == 0 then
      assert forall i :: 0 <= i < |table.records| ==> !Matches(EqualsEmail(email), table.records[i]) by {
        forall i | 0 <= i < |table.records| ensures !Matches(EqualsEmail(email), table.records[i]) {
          assert table.records[i] in table.records;
        }
      }
      None
    else
      assert rs[0] in rs;
      var i :| 0 <= i < |table.records| && table.records[i] == rs[0];
      Some(UserFromRecord(rs[0]))
  }

  class UserRepository {
    const table: Table

    constructor(table: Table)
      ensures this.table == table
    {
      this.table := table;
    }

    /** `create`: one new record holding the user's state; the stored user
        comes back with its new id. */
    method Create(entity: UserEntity) returns (saved: UserEntity)
      requires table.Valid()
      modifies table
      ensures table.Valid()
      ensures table.records == old(table.records) + [Record(IdOf(old(table.next)), StateOf(entity.Props()))]
      ensures saved.id == IdOf(old(table.next)) && saved.id != "0"
      ensures saved.Props() == entity.Props().(id := saved.id)
      ensures fresh(saved) && fresh(saved.tracker) && !saved.IsDirty()
    {
      var rec := table.Create(UserCreateInput(entity.Props()));
      IdOfInjective(0, old(table.next));
      UserCreateLoadsBack(rec.id, entity.Props());
      saved := FromData(UserFromRecord(rec));
    }

    /** `update`: a clean user is returned as it is and nothing is written;
        a dirty one has only its changed columns written and is reloaded;
        a missing record fails. */
    method Update(entity: UserEntity) returns (r: Result<UserEntity>)
      requires table.Valid()
      modifies table
      ensures table.Valid() && table.next == old(table.next)
      ensures !entity.IsDirty() ==> r == Ok(entity) && table.records == old(table.records)
      ensures entity.IsDirty() && old(table.FindUnique(entity.id)).None? ==>
        r.Err? && table.records == old(table.records)
      ensures entity.IsDirty() && old(table.FindUnique(entity.id)).Some? ==>
        table.records == UpdateIn(old(table.records), entity.id, entity.tracker.ChangesOf(entity.State())) &&
        r.Ok? && fresh(r.value) && !r.value.IsDirty() &&
        r.value.Props() == UserFromRecord(Record(entity.id,
          Apply(old(table.FindUnique(entity.id)).value.data, entity.tracker.ChangesOf(entity.State()))))
    {
      var u := UpdateEntity(table, entity.id, entity.tracker, entity.State());
      match u
      case Err(msg) => r := Err(msg);
      case Ok(None) => r := Ok(entity);
      case Ok(Some(rec)) =>
        var a := FromData(UserFromRecord(rec));
        r := Ok(a);
    }

    /** `save`: a create for a user whose id is '0', an update otherwise. */
    method Save(entity: UserEntity) returns (r: Result<UserEntity>)
      requires table.Valid()
      modifies table
      ensures table.Valid()
      ensures RouteOf(entity.id) == CreatePath ==>
        r.Ok? && r.value.Props() == entity.Props().(id := IdOf(old(table.next))) &&
        table.records == old(table.records) + [Record(r.value.id, StateOf(entity.Props()))]
      ensures RouteOf(entity.id) == UpdatePath && !entity.IsDirty() ==>
        r == Ok(entity) && table.records == old(table.records)
      ensures RouteOf(entity.id) == UpdatePath && entity.IsDirty() && old(table.FindUnique(entity.id)).None? ==>
        r.Err? && table.records == old(table.records)
      ensures RouteOf(entity.id) == UpdatePath && entity.IsDirty() && old(table.FindUnique(entity.id)).Some? ==>
        r.Ok? && table.records == UpdateIn(old(table.records), entity.id, entity.tracker.ChangesOf(entity.State()))
    {
      if RouteOf(entity.id) == CreatePath {
        var saved := Create(entity);
        r := Ok(saved);
      } else {
        r := Update(entity);
      }
    }
  }
}
