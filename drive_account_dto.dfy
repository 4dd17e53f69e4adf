/** The zod schemas of the drive-account endpoints, as parse functions from
    the raw request fields to the validated values. A rejection lists the
    fields that have an issue, in schema order. */
module DriveAccountDto {
  import opened Wrappers
  import opened Strings
  import opened RepositoryBase
  import opened DriveAccount

  datatype Parsed<T> = Accepted(value: T) | Rejected(fields: seq<string>)

  /** The field's name when its parse failed. */
  function Issue<T>(field: string, r: Result<T>): seq<string> {
    if r.Err? then [field] else []
  }

  predicate AllDigits(s: string) {
    |s| > 0 && forall i :: 0 <= i < |s| ==> '0' <= s[i] <= '9'
  }

  /** `Number(s)`, as `z.coerce.number()` applies it to query text: blank
      text is 0, and an optional sign followed by decimal digits is that
      integer. `None` stands for NaN, which the number schema rejects;
      other numerals (fractions, exponents, hexadecimal, Infinity) are not
      modelled and fall under `None` too. */
  function CoerceNumber(s: string): (r: Option<int>)
    ensures AllSpace(s) ==> r == Some(0)
  {
    TrimEmptyIffAllSpace(s);
    var t := Trim(s);
    if t == "" then Some(0)
    else if t[0] == '-' && AllDigits(t[1..]) then Some(0 - (ParseDigits(t[1..]) as int))
    else if t[0] == '+' && AllDigits(t[1..]) then Some(ParseDigits(t[1..]))
    else if AllDigits(t) then Some(ParseDigits(t))
    else None
  }

  /** Printing an integer and coercing the text gives the integer back. */
  lemma CoerceIntToString(i: int)
    ensures CoerceNumber(IntToString(i)) == Some(i)
  {
    var n: nat := if i < 0 then -i else i;
    var digits := NatToString(n);
    ParseNatToString(n);
    if i < 0 {
      assert (['-'] + digits)[1..] == digits;
      CoerceNegative(['-'] + digits);
    } else {
      CoerceDigits(digits);
    }
  }

  lemma CoerceDigits(t: string)
    requires AllDigits(t)
    ensures CoerceNumber(t) == Some(ParseDigits(t))
  {
    TrimUntrimmed(t);
  }

  lemma CoerceNegative(t: string)
    requires |t| > 1 && t[0] == '-' && AllDigits(t[1..])
    ensures CoerceNumber(t) == Some(0 - ParseDigits(t[1..]))
  {
    assert t[|t| - 1] == t[1..][|t| - 2];
    TrimUntrimmed(t);
  }

  /** A string that neither starts nor ends with white space trims to
      itself. */
  lemma TrimUntrimmed(s: string)
    requires s != [] && !IsJsSpace(s[0]) && !IsJsSpace(s[|s| - 1])
    ensures Trim(s) == s
  {
    assert TrimStart(s) == s;
    assert TrimEnd(s) == s;
  }

  // ------------------------------------------------------- list query schema

  /** The raw query string fields; `None` is an absent parameter. */
  datatype RawListQuery = RawListQuery(
    page: Option<string>, limit: Option<string>, status: Option<string>,
    search: Option<string>, orderBy: Option<string>, order: Option<string>)

  datatype ListQuery = ListQuery(
    page: int, limit: int, status: Option<AccountStatus>, search: Option<string>,
    orderBy: string, order: Direction)

  /** The columns a list may be ordered by. */
  const ORDER_COLUMNS: seq<string> := ["id", "createdAt", "storageTotal", "name", "email"]

  /** `z.coerce.number().optional().default(1)`: no lower bound. */
  function PageField(raw: Option<string>): Result<int> {
    if raw.None? then Ok(1)
    else match CoerceNumber(raw.value)
      case Some(n) => Ok(n)
      case None => Err("page")
  }

  /** `z.coerce.number().max(100).optional().default(10)`: no lower bound. */
  function LimitField(raw: Option<string>): Result<int> {
    var n := if raw.None? then Some(10) else CoerceNumber(raw.value);
    if n.Some? && n.value <= 100 then Ok(n.value) else Err("limit")
  }

  /** The optional status enum. */
  function StatusField(raw: Option<string>): Result<Option<AccountStatus>> {
    if raw.None? then Ok(None)
    else match ParseStatus(raw.value)
      case Some(s) => Ok(Some(s))
      case None => Err("status")
  }

  /** `z.string().trim().optional()`. */
  function SearchField(raw: Option<string>): Option<string> {
    if raw.None? then None else Some(Trim(raw.value))
  }

  function OrderByField(raw: Option<string>): Result<string> {
    if raw.None? then Ok("id")
    else if raw.value in ORDER_COLUMNS then Ok(raw.value)
    else Err("orderBy")
  }

  function OrderField(raw: Option<string>): Result<Direction> {
    if raw.None? then Ok(Desc)
    else if raw.value == "asc" then Ok(Asc)
    else if raw.value == "desc" then Ok(Desc)
    else Err("order")
  }

  /** `ListDriveAccountQuery2Schema`, the schema the endpoint uses. Unlike
      the unused first schema, it does not turn empty parameters into
      absent ones. */
  function ParseListQuery(q: RawListQuery): (r: Parsed<ListQuery>)
    ensures r.Accepted? <==>
      PageField(q.page).Ok? && LimitField(q.limit).Ok? && StatusField(q.status).Ok? &&
      OrderByField(q.orderBy).Ok? && OrderField(q.order).Ok?
    ensures r.Rejected? ==> |r.fields| > 0
    ensures r.Rejected? ==> ("limit" in r.fields <==> LimitField(q.limit).Err?)
    ensures r.Rejected? ==> ("status" in r.fields <==> StatusField(q.status).Err?)
    ensures r.Accepted? ==> r.value.limit <= 100 && r.value.orderBy in ORDER_COLUMNS
    ensures r.Accepted? ==> r.value.search == if q.search.Some? then Some(Trim(q.search.value)) else None
    ensures r.Accepted? && q.status.Some? ==> r.value.status.Some? && StatusName(r.value.status.value) == q.status.value
    ensures r.Accepted? && q.status.None? ==> r.value.status.None?
  {
    var page := PageField(q.page);
    var limit := LimitField(q.limit);
    var status := StatusField(q.status);
    var orderBy := OrderByField(q.orderBy);
    var order := OrderField(q.order);
    var issues := Issue("page", page) + Issue("limit", limit) + Issue("status", status) +
      Issue("orderBy", orderBy) + Issue("order", order);
    if page.Ok? && limit.Ok? && status.Ok? && orderBy.Ok? && order.Ok? then
      Accepted(ListQuery(page.value, limit.value, status.value, SearchField(q.search), orderBy.value, order.value))
    else
      Rejected(issues)
  }

  const NO_QUERY := RawListQuery(None, None, None, None, None, None)

  /** An empty query lists the first page of ten, newest id first. */
  lemma ListQueryDefaults()
    ensures ParseListQuery(NO_QUERY) == Accepted(ListQuery(1, 10, None, None, "id", Desc))
  {
  }

  /** Any page and any limit up to 100 is accepted as given: zero and
      negative values included. */
  lemma NoLowerBounds(page: int, limit: int)
    requires limit <= 100
    ensures var q := NO_QUERY.(page := Some(IntToString(page)), limit := Some(IntToString(limit)));
      ParseListQuery(q) == Accepted(ListQuery(page, limit, None, None, "id", Desc))
  {
    CoerceIntToString(page);
    CoerceIntToString(limit);
  }

  /** A limit above 100 is rejected. */
  lemma LimitAboveHundredRejected(limit: int)
    requires limit > 100
    ensures var r := ParseListQuery(NO_QUERY.(limit := Some(IntToString(limit))));
      r.Rejected? && "limit" in r.fields
  {
    CoerceIntToString(limit);
  }

  /** Without the empty-string preprocessing an empty `page=` is coerced
      to page 0, and an empty `status=` is rejected instead of ignored. */
  lemma EmptyParameters()
    ensures ParseListQuery(NO_QUERY.(page := Some(""))).value.page == 0
    ensures ParseListQuery(NO_QUERY.(status := Some(""))).Rejected?
  {
    assert CoerceNumber("") == Some(0);
  }

  /** The schema with the lower bounds the paging evidently assumes:
      page at least 1 and limit between 1 and 100. The listing skips
      `(page - 1) * limit` records, and with these bounds that skip is
      never negative, which the store requires. */
  function ParseListQueryBounded(q: RawListQuery): (r: Parsed<ListQuery>)
    ensures r.Accepted? ==> r.value.page >= 1 && 1 <= r.value.limit <= 100
    ensures r.Accepted? ==> ParseListQuery(q) == r
    ensures r.Accepted? <==>
      ParseListQuery(q).Accepted? && ParseListQuery(q).value.page >= 1 && ParseListQuery(q).value.limit >= 1
  {
    match ParseListQuery(q)
    case Rejected(fields) => Rejected(fields)
    case Accepted(v) =>
      var issues := (if v.page < 1 then ["page"] else []) + (if v.limit < 1 then ["limit"] else []);
      if issues == [] then Accepted(v) else Rejected(issues)
  }

  // ----------------------------------------------------------- create schema

  /** The email pattern `^[^\s@]+@[^\s@]+\.[^\s@]+$`, read literally: three
      non-empty runs free of white space and '@', joined by '@' and '.'. */
  predicate NoSpaceOrAt(t: string) {
    forall k :: 0 <= k < |t| ==> !IsJsSpace(t[k]) && t[k] != '@'
  }

  predicate EmailPattern(s: string) {
    exists i, j :: 0 < i && i + 1 < j < |s| - 1 && s[i] == '@' && s[j] == '.' &&
      NoSpaceOrAt(s[..i]) && NoSpaceOrAt(s[i + 1..j]) && NoSpaceOrAt(s[j + 1..])
  }

  /** What the pattern amounts to: no white space, exactly one '@', which
      is not first, and after it a '.' with at least one character on
      each side. */
  predicate EmailShape(s: string) {
    (forall k :: 0 <= k < |s| ==> !IsJsSpace(s[k])) &&
    exists a :: 0 < a < |s| && s[a] == '@' && (forall k :: 0 <= k < |s| && k != a ==> s[k] != '@') &&
      exists d :: a + 1 < d < |s| - 1 && s[d] == '.'
  }

  lemma EmailPatternIsShape(s: string)
    ensures EmailPattern(s) <==> EmailShape(s)
  {
    if EmailPattern(s) {
      PatternGivesShape(s);
    }
    if EmailShape(s) {
      ShapeGivesPattern(s);
    }
  }

  lemma PatternGivesShape(s: string)
    requires EmailPattern(s)
    ensures EmailShape(s)
  {
    var i, j :| 0 < i && i + 1 < j < |s| - 1 && s[i] == '@' && s[j] == '.' &&
      NoSpaceOrAt(s[..i]) && NoSpaceOrAt(s[i + 1..j]) && NoSpaceOrAt(s[j + 1..]);
    RunMembers(s, 0, i);
    RunMembers(s, i + 1, j);
    RunMembers(s, j + 1, |s|);
    ShapeAroundAt(s, i, j);
  }

  /** A string free of white space and '@' but for one '@' at `i`, with a
      '.' at `j`, has the e-mail shape. */
  lemma ShapeAroundAt(s: string, i: int, j: int)
    requires 0 < i && i + 1 < j < |s| - 1 && s[i] == '@' && s[j] == '.'
    requires forall k :: 0 <= k < |s| && k != i && k != j ==> !IsJsSpace(s[k]) && s[k] != '@'
    ensures EmailShape(s)
  {
    assert !IsJsSpace(s[i]) && !IsJsSpace(s[j]);
    assert forall k :: 0 <= k < |s| ==> !IsJsSpace(s[k]);
  }

  /** The converse of `RunNoSpaceOrAt`. */
  lemma RunMembers(s: string, lo: int, hi: int)
    requires 0 <= lo <= hi <= |s| && NoSpaceOrAt(s[lo..hi])
    ensures forall k :: lo <= k < hi ==> !IsJsSpace(s[k]) && s[k] != '@'
  {
    forall k | lo <= k < hi ensures !IsJsSpace(s[k]) && s[k] != '@' {
      assert s[lo..hi][k - lo] == s[k];
    }
  }

  /** A run of `s` between two positions, free of white space and '@'. */
  lemma RunNoSpaceOrAt(s: string, lo: int, hi: int)
    requires 0 <= lo <= hi <= |s|
    requires forall k :: lo <= k < hi ==> !IsJsSpace(s[k]) && s[k] != '@'
    ensures NoSpaceOrAt(s[lo..hi])
  {
    var t := s[lo..hi];
    forall k | 0 <= k < |t| ensures !IsJsSpace(t[k]) && t[k] != '@' {
      assert t[k] == s[lo + k];
    }
  }

  lemma ShapeGivesPattern(s: string)
    requires EmailShape(s)
    ensures EmailPattern(s)
  {
    var a :| 0 < a < |s| && s[a] == '@' && (forall k :: 0 <= k < |s| && k != a ==> s[k] != '@') &&
      exists d :: a + 1 < d < |s| - 1 && s[d] == '.';
    var d :| a + 1 < d < |s| - 1 && s[d] == '.';
    RunNoSpaceOrAt(s, 0, a);
    RunNoSpaceOrAt(s, a + 1, d);
    RunNoSpaceOrAt(s, d + 1, |s|);
    assert s[..a] == s[0..a];
    assert s[d + 1..] == s[d + 1..|s|];
  }

  datatype CreateAccountInput = CreateAccountInput(name: string, email: string)

  /** `CreateDriveAccountSchema`: a name of 1 to 255 characters and an
      email of at most 255 that matches the pattern. */
  function ValidateCreate(name: string, email: string): (r: Parsed<CreateAccountInput>)
    ensures r.Accepted? <==> 1 <= |name| <= 255 && |email| <= 255 && EmailShape(email)
    ensures r.Accepted? ==> r.value == CreateAccountInput(name, email)
    ensures r.Rejected? ==> ("name" in r.fields <==> !(1 <= |name| <= 255))
  {
    EmailPatternIsShape(email);
    var nameOk := 1 <= |name| <= 255;
    var emailOk := |email| <= 255 && EmailPattern(email);
    if nameOk && emailOk then Accepted(CreateAccountInput(name, email))
    else Rejected((if nameOk then [] else ["name"]) + (if emailOk then [] else ["email"]))
  }

  // ----------------------------------------------------------- update schema

  datatype UpdateAccountInput = UpdateAccountInput(name: Option<string>, status: Option<AccountStatus>)

  /** `UpdateDriveAccountSchema`: both fields optional; a given name has 1
      to 255 characters and a given status is one of the enum members. */
  function ValidateUpdate(name: Option<string>, status: Option<string>): (r: Parsed<UpdateAccountInput>)
    ensures r.Accepted? <==>
      (name.None? || 1 <= |name.value| <= 255) && (status.None? || ParseStatus(status.value).Some?)
    ensures r.Accepted? ==> r.value.name == name
    ensures r.Accepted? ==> (r.value.status.Some? <==> status.Some?)
    ensures r.Accepted? && status.Some? ==> StatusName(r.value.status.value) == status.value
  {
    var nameOk := name.None? || 1 <= |name.value| <= 255;
    var parsed := StatusField(status);
    if nameOk && parsed.Ok? then Accepted(UpdateAccountInput(name, parsed.value))
    else Rejected((if nameOk then [] else ["name"]) + Issue("status", parsed))
  }

  /** An empty body is a valid update that changes nothing; an empty name
      is not. */
  lemma UpdateEdgeCases(status: Option<string>)
    ensures ValidateUpdate(None, None) == Accepted(UpdateAccountInput(None, None))
    ensures ValidateUpdate(Some(""), status).Rejected?
  {
  }
}
