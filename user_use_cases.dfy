/** `CreateUserUseCase`: register a user whose email is not yet on
    record. */
module UserUseCases {
  import opened Wrappers
  import opened EntityBase
  import opened RepositoryBase
  import opened User
  import opened UserRepository
  import opened Errors

  /** `execute(user)`: the email is looked up first; one already on record
      throws `ConflictError.duplicate('email', email)` and nothing is
      saved. Otherwise the result is whatever `save` returns (a store
      failure is rethrown as it is). A new user, id '0', takes the create
      path and keeps emails unique. */
  method CreateUser(repo: UserRepository, user: UserEntity) returns (r: Outcome<UserEntity>)
    requires repo.table.Valid()
    modifies repo.table
    ensures repo.table.Valid()
    ensures old(FindByEmail(repo.table, user.email)).Some? ==>
      r == Threw(App(ConflictDuplicate("email", user.email))) && repo.table.records == old(repo.table.records)
    ensures old(FindByEmail(repo.table, user.email)).None? && user.id == "0" ==>
      r.Returned? && r.value.Props() == user.Props().(id := IdOf(old(repo.table.next))) &&
      repo.table.records == old(repo.table.records) + [Record(r.value.id, StateOf(user.Props()))]
    ensures old(FindByEmail(repo.table, user.email)).None? && user.id != "0" && !user.IsDirty() ==>
      r == Returned(user) && repo.table.records == old(repo.table.records)
    ensures old(FindByEmail(repo.table, user.email)).None? && user.id == "0" ==>
      (UniqueEmails(old(repo.table.records)) ==> UniqueEmails(repo.table.records))
  {
    var existing := FindByEmail(repo.table, user.email);
    if existing.Some? {
      return Threw(App(ConflictDuplicate("email", user.email)));
    }
    var saved := repo.Save(user);
    if user.id == "0" {
      CreateKeepsEmailsUnique(old(repo.table.records), saved.value.id, StateOf(user.Props()), user.email);
    }
    match saved
    case Ok(u) => r := Returned(u);
    case Err(m) => r := Threw(Other(m));
  }

  /** After a user is created the email finds exactly that user. */
  lemma CreatedUserIsFoundByEmail(rs: seq<Record>, id: string, p: UserProps)
    requires forall i :: 0 <= i < |rs| ==> Column(rs[i], "email") != Str(p.email)
    ensures var rec := Record(id, StateOf(p));
      Filter(rs + [rec], EqualsEmail(p.email)) == [rec] &&
      UserFromRecord(rec) == p.(id := id)
  {
    var rec := Record(id, StateOf(p));
    EmailColumnOfState(id, p);
    FilterFindsOnlyLast(rs, rec, EqualsEmail(p.email));
    UserCreateLoadsBack(id, p);
  }

  lemma EmailColumnOfState(id: string, p: UserProps)
    ensures Column(Record(id, StateOf(p)), "email") == Str(p.email)
  {
  }
}
