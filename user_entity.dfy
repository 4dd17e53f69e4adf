/** `User`: an account holder of the service, with an optional profile
    (name, image), an email verification date, a role and a password
    hash. Dates are milliseconds since the epoch. */
module User {
  import opened Wrappers
  import opened EntityBase

  /** `UserRole`. */
  datatype Role = USER | ADMIN

  function RoleName(r: Role): string {
    match r
    case USER => "USER"
    case ADMIN => "ADMIN"
  }

  /** The role with the given name, if any. */
  function ParseRole(name: string): (r: Option<Role>)
    ensures r.Some? ==> RoleName(r.value) == name
    ensures r.None? ==> forall x :: RoleName(x) != name
  {
    if name == "USER" then Some(USER) else if name == "ADMIN" then Some(ADMIN) else None
  }

  lemma ParseRoleName(r: Role)
    ensures ParseRole(RoleName(r)) == Some(r)
  {
  }

  /** `IUser`; each nullable property is `None` where it is `null`. */
  datatype UserProps = UserProps(
    id: string, email: string, name: Option<string>, image: Option<string>,
    emailVerified: Option<int>, role: Role, password: Option<string>,
    createdAt: int, updatedAt: int)

  /** `getCurrentState` of a user holding `p`: every property but id. */
  function StateOf(p: UserProps): Row {
    map["email" := Str(p.email), "name" := NullableValue(p.name), "image" := NullableValue(p.image),
        "emailVerified" := DateValue(p.emailVerified), "role" := Str(RoleName(p.role)),
        "password" := NullableValue(p.password), "createdAt" := Num(p.createdAt),
        "updatedAt" := Num(p.updatedAt)]
  }

  /** `toObject` of a user holding `p`, as a row. */
  function ObjectOf(p: UserProps): Row {
    map["id" := Str(p.id), "email" := Str(p.email), "name" := NullableValue(p.name),
        "image" := NullableValue(p.image), "emailVerified" := DateValue(p.emailVerified),
        "role" := Str(RoleName(p.role)), "password" := NullableValue(p.password),
        "createdAt" := Num(p.createdAt), "updatedAt" := Num(p.updatedAt)]
  }

  /** `toObject` is `getCurrentState` plus the id. */
  lemma ObjectIsStatePlusId(p: UserProps)
    ensures "id" !in StateOf(p)
    ensures ObjectOf(p) - {"id"} == StateOf(p)
  {
    assert (ObjectOf(p) - {"id"}).Keys == StateOf(p).Keys;
  }

  /** `x || null` for an optional text argument: absent and empty both
      become `null`. */
  function OrNull(x: Option<string>): (r: Option<string>)
    ensures r.None? <==> x.None? || x.value == ""
    ensures r.Some? ==> r == x
  {
    if x.Some? && x.value != "" then x else None
  }

  /** The arguments of `User.create`; `None` is an omitted property. */
  datatype NewUserInput = NewUserInput(
    email: string, name: Option<string>, image: Option<string>,
    role: Option<Role>, password: Option<string>)

  /** `create` at clock reading `now`. */
  function NewUser(input: NewUserInput, now: int): (p: UserProps)
    ensures p.id == "0" && p.email == input.email
    ensures p.emailVerified.None? && p.createdAt == now && p.updatedAt == now
    ensures p.role == if input.role.Some? then input.role.value else USER
    ensures p.name.None? <==> input.name.None? || input.name.value == ""
    ensures p.image.None? <==> input.image.None? || input.image.value == ""
    ensures p.password.None? <==> input.password.None? || input.password.value == ""
    ensures p.name.Some? ==> p.name == input.name
    ensures p.image.Some? ==> p.image == input.image
    ensures p.password.Some? ==> p.password == input.password
  {
    UserProps("0", input.email, OrNull(input.name), OrNull(input.image), None,
      input.role.GetOr(USER), OrNull(input.password), now, now)
  }

  /** `isAdmin`. */
  predicate IsAdmin(p: UserProps) {
    p.role == ADMIN
  }

  /** A new user is an administrator exactly when created with that role. */
  lemma NewUserAdminIff(input: NewUserInput, now: int)
    ensures IsAdmin(NewUser(input, now)) <==> input.role == Some(ADMIN)
  {
  }

  // -------------------------------------------------------------- mutators

  /** The user's mutators: `updateProfile(name?, image?)` and
      `verifyEmail()`. */
  datatype UserOp =
    | UpdateProfile(newName: Option<string>, newImage: Option<string>)
    | VerifyEmail

  /** The user after one mutator run at clock reading `now`. A given
      argument replaces the property even when it is empty; both mutators
      refresh `updatedAt`. */
  function Step(p: UserProps, op: UserOp, now: int): UserProps {
    match op
    case UpdateProfile(n, i) =>
      p.(name := if n.Some? then n else p.name, image := if i.Some? then i else p.image, updatedAt := now)
    case VerifyEmail => p.(emailVerified := Some(now), updatedAt := now)
  }

  function Touched(op: UserOp): set<string> {
    match op
    case UpdateProfile(_, _) => {"name", "image", "updatedAt"}
    case VerifyEmail => {"emailVerified", "updatedAt"}
  }

  /** A mutator changes only the properties it touches; email, role and
      password never appear in the update clause. */
  lemma StepChangesOnlyTouched(p: UserProps, op: UserOp, now: int)
    ensures Changes(StateOf(p), StateOf(Step(p, op, now))).Keys <= Touched(op)
    ensures "email" !in Changes(StateOf(p), StateOf(Step(p, op, now)))
    ensures "role" !in Changes(StateOf(p), StateOf(Step(p, op, now)))
    ensures "password" !in Changes(StateOf(p), StateOf(Step(p, op, now)))
  {
    var c := Changes(StateOf(p), StateOf(Step(p, op, now)));
    forall k | k in c ensures k in Touched(op) {
      assert StateOf(Step(p, op, now))[k] != StateOf(p)[k];
    }
  }

  /** `updateProfile`: an empty string is a value like any other and is
      kept, unlike in `create`; an omitted argument keeps the old one. */
  lemma UpdateProfileKeepsEmpty(p: UserProps, now: int)
    ensures Step(p, UpdateProfile(Some(""), None), now).name == Some("")
    ensures Step(p, UpdateProfile(Some(""), None), now).image == p.image
    ensures NewUser(NewUserInput(p.email, Some(""), None, None, None), now).name.None?
  {
  }

  /** After `verifyEmail` the user is verified as of the clock reading. */
  lemma VerifyEmailVerifies(p: UserProps, now: int)
    ensures Step(p, VerifyEmail, now).emailVerified == Some(now)
    ensures Changes(StateOf(p), StateOf(Step(p, VerifyEmail, now))).Keys <= {"emailVerified", "updatedAt"}
    ensures p.emailVerified != Some(now) ==> "emailVerified" in Changes(StateOf(p), StateOf(Step(p, VerifyEmail, now)))
  {
    StepChangesOnlyTouched(p, VerifyEmail, now);
    assert StateOf(Step(p, VerifyEmail, now))["emailVerified"] == Num(now);
  }

  function Run(p: UserProps, ops: seq<UserOp>, now: int): UserProps
    decreases |ops|
  {
    if |ops| == 0 then p else Run(Step(p, ops[0], now), ops[1..], now)
  }

  /** Whatever mutators run, id, email, role, password and createdAt stay
      as they were; so does being an administrator. */
  lemma {:induction false} RunKeepsIdentity(p: UserProps, ops: seq<UserOp>, now: int)
    ensures var q := Run(p, ops, now);
      q.id == p.id && q.email == p.email && q.role == p.role &&
      q.password == p.password && q.createdAt == p.createdAt &&
      (IsAdmin(q) <==> IsAdmin(p))
    decreases |ops|
  {
    if |ops| > 0 {
      RunKeepsIdentity(Step(p, ops[0], now), ops[1..], now);
    }
  }

  /** The domain object. The tracker holds the dirty-checking snapshot. */
  class UserEntity {
    const id: string
    const email: string
    var name: Option<string>
    var image: Option<string>
    var emailVerified: Option<int>
    const role: Role
    const password: Option<string>
    const createdAt: int
    var updatedAt: int
    const tracker: Tracker

    /** The private constructor: copies the properties and takes the
        initial snapshot. */
    constructor(p: UserProps)
      ensures Props() == p
      ensures fresh(tracker) && tracker.original == Some(StateOf(p))
    {
      id := p.id;
      email := p.email;
      name := p.name;
      image := p.image;
      emailVerified := p.emailVerified;
      role := p.role;
      password := p.password;
      createdAt := p.createdAt;
      updatedAt := p.updatedAt;
      tracker := new Tracker();
      new;
      tracker.SetInitialState(StateOf(p));
    }

    /** `toObject`. */
    function Props(): UserProps
      reads this
    {
      UserProps(id, email, name, image, emailVerified, role, password, createdAt, updatedAt)
    }

    /** `getCurrentState`. */
    function State(): Row
      reads this
    {
      StateOf(Props())
    }

    function IsDirty(): bool
      reads this, tracker
    {
      tracker.IsDirty(State())
    }

    /** `isAdmin`. */
    function IsAdministrator(): (admin: bool)
      reads this
      ensures admin <==> IsAdmin(Props())
    {
      role == ADMIN
    }

    /** `updateTimestamp`. */
    method Touch(now: int)
      modifies this
      ensures Props() == old(Props()).(updatedAt := now)
    {
      updatedAt := now;
    }

    method UpdateProfile(newName: Option<string>, newImage: Option<string>, now: int)
      modifies this
      ensures Props() == Step(old(Props()), UserOp.UpdateProfile(newName, newImage), now)
    {
      if newName.Some? {
        name := newName;
      }
      if newImage.Some? {
        image := newImage;
      }
      Touch(now);
    }

    method VerifyEmail(now: int)
      modifies this
      ensures Props() == Step(old(Props()), UserOp.VerifyEmail, now)
    {
      emailVerified := Some(now);
      Touch(now);
    }
  }

  /** `create`; a new user is clean. */
  method Create(input: NewUserInput, now: int) returns (e: UserEntity)
    ensures fresh(e) && fresh(e.tracker)
    ensures e.Props() == NewUser(input, now)
    ensures !e.IsDirty()
  {
    e := new UserEntity(NewUser(input, now));
    NoChangesAgainstSelf(e.State());
  }

  /** `fromData`: a user holding exactly the given properties, clean. */
  method FromData(p: UserProps) returns (e: UserEntity)
    ensures fresh(e) && fresh(e.tracker)
    ensures e.Props() == p && !e.IsDirty()
    ensures e.tracker.original == Some(StateOf(p))
  {
    e := new UserEntity(p);
    NoChangesAgainstSelf(e.State());
  }
}
