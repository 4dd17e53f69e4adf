/** Credential checks: `ValidateUserUseCase.execute` and
    `AuthDomainService.validateUser`. The users are those the user
    repository finds by email; the password hash comparison (bcrypt) is a
    parameter, `compare(plain, hash)`. */
module Auth {
  import opened Wrappers
  import opened EntityBase
  import opened RepositoryBase
  import opened User
  import opened UserRepository
  import opened Errors

  /** `Omit<IUser, 'password'>`. */
  datatype SafeUser = SafeUser(
    id: string, email: string, name: Option<string>, image: Option<string>,
    emailVerified: Option<int>, role: Role, createdAt: int, updatedAt: int)

  /** Every property of the user but its password hash. */
  function Strip(p: UserProps): SafeUser {
    SafeUser(p.id, p.email, p.name, p.image, p.emailVerified, p.role, p.createdAt, p.updatedAt)
  }

  /** A safe user as a plain object. */
  function SafeRow(s: SafeUser): Row {
    map["id" := Str(s.id), "email" := Str(s.email), "name" := NullableValue(s.name),
        "image" := NullableValue(s.image), "emailVerified" := DateValue(s.emailVerified),
        "role" := Str(RoleName(s.role)), "createdAt" := Num(s.createdAt), "updatedAt" := Num(s.updatedAt)]
  }

  /** The stripped user is `toObject()` with the password property taken
      out and nothing else. */
  lemma StripOmitsOnlyPassword(p: UserProps)
    ensures SafeRow(Strip(p)) == ObjectOf(p) - {"password"}
    ensures "password" !in SafeRow(Strip(p))
  {
    assert SafeRow(Strip(p)).Keys == (ObjectOf(p) - {"password"}).Keys;
  }

  /** `user.password` is truthy: present and not empty. */
  predicate HasPassword(p: UserProps) {
    p.password.Some? && p.password.value != ""
  }

  /** `!user || !user.password || !compare(password, user.password)`
      fails; `compare` is consulted only when the first two tests pass. */
  predicate Admits(user: Option<UserProps>, password: string, compare: (string, string) -> bool) {
    user.Some? && HasPassword(user.value) && compare(password, user.value.password.value)
  }

  /** `ValidateUserUseCase.execute(email, password)`: any user, of any
      role, whose stored hash matches. */
  function ValidateUser(table: Table, email: string, password: string, compare: (string, string) -> bool)
    : (r: Outcome<SafeUser>)
    reads table
    ensures r.Threw? ==> r == Threw(App(InvalidCredentials()))
    ensures r.Returned? <==> Admits(FindByEmail(table, email), password, compare)
    ensures r.Returned? ==>
      r.value.email == email && r.value == Strip(FindByEmail(table, email).value) &&
      exists i :: 0 <= i < |table.records| && r.value == Strip(UserFromRecord(table.records[i]))
  {
    var user := FindByEmail(table, email);
    if !Admits(user, password, compare) then Threw(App(InvalidCredentials()))
    else Returned(Strip(user.value))
  }

  /** `AuthDomainService.validateUser(email, pass)`: as above, but only an
      administrator gets through; the role is tested before the password. */
  function DomainValidateUser(table: Table, email: string, pass: string, compare: (string, string) -> bool)
    : (r: Outcome<SafeUser>)
    reads table
    ensures r.Threw? ==> r == Threw(App(InvalidCredentials()))
    ensures r.Returned? <==>
      FindByEmail(table, email).Some? && FindByEmail(table, email).value.role == ADMIN &&
      Admits(FindByEmail(table, email), pass, compare)
    ensures r.Returned? ==> r.value.role == ADMIN && r.value.email == email
  {
    var user := FindByEmail(table, email);
    if user.None? || user.value.role != ADMIN || !Admits(user, pass, compare) then
      Threw(App(InvalidCredentials()))
    else
      var u := user.value;
      Returned(SafeUser(u.id, u.email, u.name, u.image, u.emailVerified, u.role, u.createdAt, u.updatedAt))
  }

  /** The domain service is the use case restricted to administrators:
      where it admits a user the use case admits the same user with the
      same object, and for an administrator the two agree outright. */
  lemma DomainIsUseCaseForAdmins(table: Table, email: string, pass: string, compare: (string, string) -> bool)
    ensures DomainValidateUser(table, email, pass, compare).Returned? ==>
      ValidateUser(table, email, pass, compare) == DomainValidateUser(table, email, pass, compare)
    ensures FindByEmail(table, email).Some? && FindByEmail(table, email).value.role == ADMIN ==>
      ValidateUser(table, email, pass, compare) == DomainValidateUser(table, email, pass, compare)
  {
  }

  /** A user who is not an administrator never passes the domain service,
      whatever the password, and the hash is not even compared; the use
      case admits the same user with the right password. */
  lemma NonAdminRefused(table: Table, email: string, pass: string, c1: (string, string) -> bool, c2: (string, string) -> bool)
    requires FindByEmail(table, email).Some? && FindByEmail(table, email).value.role == USER
    ensures DomainValidateUser(table, email, pass, c1) == Threw(App(InvalidCredentials()))
    ensures DomainValidateUser(table, email, pass, c1) == DomainValidateUser(table, email, pass, c2)
    ensures Admits(FindByEmail(table, email), pass, c1) ==> ValidateUser(table, email, pass, c1).Returned?
  {
  }

  /** An unknown email and a user without a password fail before any hash
      is compared: the outcome is the same whatever `compare` says. */
  lemma NoCompareWithoutHash(table: Table, email: string, pass: string, c1: (string, string) -> bool, c2: (string, string) -> bool)
    requires FindByEmail(table, email).None? || !HasPassword(FindByEmail(table, email).value)
    ensures ValidateUser(table, email, pass, c1) == ValidateUser(table, email, pass, c2) == Threw(App(InvalidCredentials()))
    ensures DomainValidateUser(table, email, pass, c1) == DomainValidateUser(table, email, pass, c2) == Threw(App(InvalidCredentials()))
  {
  }

  /** Every refusal is the same `invalidCredentials` error, a 401 with code
      UNAUTHORIZED: an unknown email cannot be told from a wrong
      password. */
  lemma RefusalsIndistinguishable(table: Table, e1: string, p1: string, e2: string, p2: string, compare: (string, string) -> bool)
    requires ValidateUser(table, e1, p1, compare).Threw?
    requires DomainValidateUser(table, e2, p2, compare).Threw?
    ensures ValidateUser(table, e1, p1, compare) == DomainValidateUser(table, e2, p2, compare)
    ensures var e := ValidateUser(table, e1, p1, compare).exception.error;
      e.kind == Unauthorized && e.statusCode == 401 && e.code == UNAUTHORIZED && e.message == "Invalid credentials"
  {
  }
}
