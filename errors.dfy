/** The application's error hierarchy (`AppError` and its subclasses) with
    their static factories. An error is a value: the class it was built
    from, the fields the `AppError` constructor sets, and the context
    object. The `ERROR_CODES` and `HTTP_STATUS` tables live in a file that
    is not part of this model: a code is named by its table member, and a
    status is the number the member's name stands for in section 15 of
    RFC 9110 (429 in section 4 of RFC 6585). */
module Errors {
  import opened Wrappers
  import opened Strings
  import opened Json

  /** The concrete subclasses of `AppError`. */
  datatype ErrorKind =
    | Validation | NotFound | Conflict | BusinessRule | Unauthorized
    | Forbidden | Infrastructure | ExternalService | RateLimit

  /** The `ERROR_CODES` members the subclasses use. */
  datatype ErrorCode =
    | VALIDATION_ERROR | NOT_FOUND | ALREADY_EXISTS | BUSINESS_RULE_VIOLATION
    | UNAUTHORIZED | FORBIDDEN | INTERNAL_ERROR | EXTERNAL_SERVICE_ERROR
    | RATE_LIMIT_EXCEEDED

  function CodeName(c: ErrorCode): string {
    match c
    case VALIDATION_ERROR => "VALIDATION_ERROR"
    case NOT_FOUND => "NOT_FOUND"
    case ALREADY_EXISTS => "ALREADY_EXISTS"
    case BUSINESS_RULE_VIOLATION => "BUSINESS_RULE_VIOLATION"
    case UNAUTHORIZED => "UNAUTHORIZED"
    case FORBIDDEN => "FORBIDDEN"
    case INTERNAL_ERROR => "INTERNAL_ERROR"
    case EXTERNAL_SERVICE_ERROR => "EXTERNAL_SERVICE_ERROR"
    case RATE_LIMIT_EXCEEDED => "RATE_LIMIT_EXCEEDED"
  }

  /** `this.constructor.name`. */
  function ClassName(k: ErrorKind): string {
    match k
    case Validation => "ValidationError"
    case NotFound => "NotFoundError"
    case Conflict => "ConflictError"
    case BusinessRule => "BusinessRuleError"
    case Unauthorized => "UnauthorizedError"
    case Forbidden => "ForbiddenError"
    case Infrastructure => "InfrastructureError"
    case ExternalService => "ExternalServiceError"
    case RateLimit => "RateLimitError"
  }

  /** The code each subclass passes to `super`. */
  function CodeOf(k: ErrorKind): ErrorCode {
    match k
    case Validation => VALIDATION_ERROR
    case NotFound => NOT_FOUND
    case Conflict => ALREADY_EXISTS
    case BusinessRule => BUSINESS_RULE_VIOLATION
    case Unauthorized => UNAUTHORIZED
    case Forbidden => FORBIDDEN
    case Infrastructure => INTERNAL_ERROR
    case ExternalService => EXTERNAL_SERVICE_ERROR
    case RateLimit => RATE_LIMIT_EXCEEDED
  }

  /** The HTTP status each subclass passes to `super`: BAD_REQUEST,
      NOT_FOUND, CONFLICT, BAD_REQUEST, UNAUTHORIZED, FORBIDDEN,
      INTERNAL_SERVER_ERROR, BAD_GATEWAY and TOO_MANY_REQUESTS. */
  function StatusOf(k: ErrorKind): int {
    match k
    case Validation => 400
    case NotFound => 404
    case Conflict => 409
    case BusinessRule => 400
    case Unauthorized => 401
    case Forbidden => 403
    case Infrastructure => 500
    case ExternalService => 502
    case RateLimit => 429
  }

  /** Each subclass has a code of its own, so the code tells the class; the
      status is a client error for every class but the two that report a
      failure on the server side. */
  lemma CodeIdentifiesClass(k: ErrorKind, k': ErrorKind)
    ensures CodeOf(k) == CodeOf(k') <==> k == k'
    ensures CodeName(CodeOf(k)) == CodeName(CodeOf(k')) <==> k == k'
    ensures 400 <= StatusOf(k) < 600
    ensures StatusOf(k) >= 500 <==> k == Infrastructure || k == ExternalService
  {
  }

  /** An `Error` attached as `originalError`; only its name and message
      are read. */
  datatype Cause = Cause(name: string, message: string)

  /** `ErrorOptions`. */
  datatype Options = Options(context: Option<seq<Field>>, originalError: Option<Cause>)

  const NO_OPTIONS := Options(None, None)

  /** An `AppError` as built: its class, then the fields the constructor
      sets. The timestamp and stack are left out. */
  datatype AppError = AppError(
    kind: ErrorKind, name: string, message: string, code: ErrorCode,
    statusCode: int, context: seq<Field>, isOperational: bool,
    originalError: Option<Cause>)

  /** What every `AppError` constructor guarantees: it is operational, it
      is named after its class, and it carries its class's code and
      status. */
  predicate WellFormed(e: AppError) {
    e.isOperational && e.name == ClassName(e.kind) &&
    e.code == CodeOf(e.kind) && e.statusCode == StatusOf(e.kind)
  }

  /** The `AppError` constructor as called by a subclass of kind `k`: the
      context defaults to an empty object and the original error is kept
      as given. */
  function NewError(k: ErrorKind, message: string, options: Options): (e: AppError)
    ensures WellFormed(e) && e.kind == k && e.message == message
    ensures options.context.None? ==> e.context == []
    ensures options.context.Some? ==> e.context == options.context.value
    ensures e.originalError == options.originalError
  {
    AppError(k, ClassName(k), message, CodeOf(k), StatusOf(k),
      options.context.GetOr([]), true, options.originalError)
  }

  /** An optional argument as a property value: absent is `undefined`. */
  function OptStr(o: Option<string>): Json {
    match o
    case Some(s) => JStr(s)
    case None => JUndefined
  }

  /** An optional text argument taken through `||`: present and non-empty. */
  predicate Given(o: Option<string>) {
    o.Some? && o.value != ""
  }

  // ----------------------------------------------------------- NotFoundError

  /** `NotFoundError.resource`: the identifier is named when it is truthy. */
  function NotFoundResource(resourceType: string, identifier: Option<string>): (e: AppError)
    ensures WellFormed(e) && e.kind == NotFound && e.originalError.None?
    ensures Given(identifier) ==> e.message == resourceType + " with identifier '" + identifier.value + "' not found"
    ensures !Given(identifier) ==> e.message == resourceType + " not found"
    ensures Lookup(e.context, "resourceType") == JStr(resourceType)
    ensures Lookup(e.context, "identifier") == OptStr(identifier)
  {
    var message :=
      if Given(identifier) then resourceType + " with identifier '" + identifier.value + "' not found"
      else resourceType + " not found";
    NewError(NotFound, message,
      Options(Some([Field("resourceType", JStr(resourceType)), Field("identifier", OptStr(identifier))]), None))
  }

  /** Whichever form it takes, the message starts with the resource type
      and ends with " not found". */
  lemma NotFoundResourceShape(resourceType: string, identifier: Option<string>)
    ensures IsPrefix(resourceType, NotFoundResource(resourceType, identifier).message)
    ensures IsSuffix(" not found", NotFoundResource(resourceType, identifier).message)
  {
    if Given(identifier) {
      var mid := " with identifier '" + identifier.value + "'";
      assert "' not found" == "'" + " not found";
      assert NotFoundResource(resourceType, identifier).message == resourceType + mid + " not found";
      EndsOfConcat(resourceType, mid, " not found");
    } else {
      EndsOfConcat(resourceType, "", " not found");
    }
  }

  /** `NotFoundError.entity`. */
  function NotFoundEntity(entityName: string, criteria: seq<Field>): (e: AppError)
    ensures WellFormed(e) && e.kind == NotFound && e.message == entityName + " not found"
    ensures Lookup(e.context, "criteria") == JObj(criteria)
  {
    NewError(NotFound, entityName + " not found",
      Options(Some([Field("entityName", JStr(entityName)), Field("criteria", JObj(criteria))]), None))
  }

  // ----------------------------------------------------------- ConflictError

  /** `ConflictError.duplicate`, for a value that is text. */
  function ConflictDuplicate(field: string, value: string): (e: AppError)
    ensures WellFormed(e) && e.kind == Conflict && e.statusCode == 409
    ensures e.message == field + " '" + value + "' already exists"
    ensures Lookup(e.context, "type") == JStr("duplicate")
    ensures Lookup(e.context, "field") == JStr(field) && Lookup(e.context, "value") == JStr(value)
  {
    NewError(Conflict, field + " '" + value + "' already exists",
      Options(Some([Field("field", JStr(field)), Field("value", JStr(value)), Field("type", JStr("duplicate"))]), None))
  }

  /** `ConflictError.constraint`: the given message when it is truthy,
      otherwise one naming the constraint. */
  function ConflictConstraint(constraint: string, message: Option<string>): (e: AppError)
    ensures WellFormed(e) && e.kind == Conflict
    ensures Given(message) ==> e.message == message.value
    ensures !Given(message) ==> e.message == "Constraint violation: " + constraint
    ensures Lookup(e.context, "type") == JStr("constraint")
  {
    var m := if Given(message) then message.value else "Constraint violation: " + constraint;
    NewError(Conflict, m,
      Options(Some([Field("constraint", JStr(constraint)), Field("type", JStr("constraint"))]), None))
  }

  /** `ConflictError.state`. */
  function ConflictState(message: string, currentState: string, expectedState: string): (e: AppError)
    ensures WellFormed(e) && e.kind == Conflict && e.message == message
    ensures Lookup(e.context, "type") == JStr("state")
    ensures Lookup(e.context, "currentState") == JStr(currentState)
    ensures Lookup(e.context, "expectedState") == JStr(expectedState)
  {
    NewError(Conflict, message,
      Options(Some([Field("currentState", JStr(currentState)), Field("expectedState", JStr(expectedState)),
        Field("type", JStr("state"))]), None))
  }

  // ------------------------------------------------------- BusinessRuleError

  /** `BusinessRuleError.rule`; an absent violated value is `undefined`. */
  function BusinessRuleViolation(ruleName: string, message: string, violatedValue: Json): (e: AppError)
    ensures WellFormed(e) && e.kind == BusinessRule && e.message == message && e.statusCode == 400
    ensures Lookup(e.context, "rule") == JStr(ruleName)
    ensures Lookup(e.context, "violatedValue") == violatedValue
  {
    NewError(BusinessRule, message,
      Options(Some([Field("rule", JStr(ruleName)), Field("violatedValue", violatedValue)]), None))
  }

  /** `BusinessRuleError.permission`. */
  function BusinessPermission(action: string, resource: string): (e: AppError)
    ensures WellFormed(e) && e.kind == BusinessRule
    ensures e.message == "Cannot " + action + " " + resource + ": insufficient permissions"
    ensures Lookup(e.context, "type") == JStr("permission")
  {
    NewError(BusinessRule, "Cannot " + action + " " + resource + ": insufficient permissions",
      Options(Some([Field("action", JStr(action)), Field("resource", JStr(resource)),
        Field("type", JStr("permission"))]), None))
  }

  // ------------------------------------------------------ UnauthorizedError

  /** The `UnauthorizedError` constructor: a falsy message is replaced by
      the default. */
  function UnauthorizedError(message: Option<string>, options: Options): (e: AppError)
    ensures WellFormed(e) && e.kind == Unauthorized && e.statusCode == 401
    ensures e.message == if Given(message) then message.value else "Authentication required"
    ensures e.message != ""
  {
    NewError(Unauthorized, if Given(message) then message.value else "Authentication required", options)
  }

  /** An `UnauthorizedError` factory: a fixed message and a context whose
      only property is its type. */
  function UnauthorizedOf(message: string, kind: string): (e: AppError)
    requires message != ""
    ensures WellFormed(e) && e.kind == Unauthorized && e.message == message
    ensures e.context == [Field("type", JStr(kind))] && e.originalError.None?
  {
    UnauthorizedError(Some(message), Options(Some([Field("type", JStr(kind))]), None))
  }

  function MissingToken(): (e: AppError)
    ensures WellFormed(e) && e.message == "Missing authentication token"
    ensures Lookup(e.context, "type") == JStr("missing_token")
  {
    UnauthorizedOf("Missing authentication token", "missing_token")
  }

  function InvalidToken(): (e: AppError)
    ensures WellFormed(e) && e.message == "Invalid authentication token"
    ensures Lookup(e.context, "type") == JStr("invalid_token")
  {
    UnauthorizedOf("Invalid authentication token", "invalid_token")
  }

  function ExpiredToken(): (e: AppError)
    ensures WellFormed(e) && e.message == "Authentication token has expired"
    ensures Lookup(e.context, "type") == JStr("expired_token")
  {
    UnauthorizedOf("Authentication token has expired", "expired_token")
  }

  /** `UnauthorizedError.invalidCredentials`: the one error every failed
      login reports. */
  function InvalidCredentials(): (e: AppError)
    ensures WellFormed(e) && e.kind == Unauthorized && e.statusCode == 401
    ensures e.message == "Invalid credentials"
    ensures Lookup(e.context, "type") == JStr("invalid_credentials")
  {
    UnauthorizedOf("Invalid credentials", "invalid_credentials")
  }

  // --------------------------------------------------------- ForbiddenError

  /** The `ForbiddenError` constructor: a falsy message is replaced by the
      default. */
  function ForbiddenError(message: Option<string>, options: Options): (e: AppError)
    ensures WellFormed(e) && e.kind == Forbidden && e.statusCode == 403
    ensures e.message == if Given(message) then message.value else "Access forbidden"
    ensures e.message != ""
  {
    NewError(Forbidden, if Given(message) then message.value else "Access forbidden", options)
  }

  function ForbiddenAction(action: string, resource: string): (e: AppError)
    ensures WellFormed(e) && e.kind == Forbidden
    ensures e.message == "Cannot " + action + " " + resource
    ensures Lookup(e.context, "type") == JStr("action")
  {
    var m := "Cannot " + action + " " + resource;
    assert m[..7] == "Cannot ";
    ForbiddenError(Some(m),
      Options(Some([Field("action", JStr(action)), Field("resource", JStr(resource)), Field("type", JStr("action"))]), None))
  }

  /** `ForbiddenError.role`; an absent user role is `undefined`. */
  function ForbiddenRole(requiredRole: string, userRole: Option<string>): (e: AppError)
    ensures WellFormed(e) && e.kind == Forbidden
    ensures e.message == "Requires " + requiredRole + " role"
    ensures Lookup(e.context, "userRole") == OptStr(userRole)
  {
    var m := "Requires " + requiredRole + " role";
    assert m[..9] == "Requires ";
    ForbiddenError(Some(m),
      Options(Some([Field("requiredRole", JStr(requiredRole)), Field("userRole", OptStr(userRole)),
        Field("type", JStr("role"))]), None))
  }

  // ---------------------------------------------------- InfrastructureError

  /** `InfrastructureError.database`; the original error is attached only
      when one is given. */
  function DatabaseFailure(operation: string, originalError: Option<Cause>): (e: AppError)
    ensures WellFormed(e) && e.kind == Infrastructure && e.statusCode == 500
    ensures e.message == "Database " + operation + " failed"
    ensures e.originalError == originalError
    ensures Lookup(e.context, "service") == JStr("database")
  {
    NewError(Infrastructure, "Database " + operation + " failed",
      Options(Some([Field("service", JStr("database")), Field("operation", JStr(operation))]), originalError))
  }

  function ServiceFailure(serviceName: string, operation: string, originalError: Option<Cause>): (e: AppError)
    ensures WellFormed(e) && e.kind == Infrastructure
    ensures e.message == serviceName + " " + operation + " failed"
    ensures e.originalError == originalError
  {
    NewError(Infrastructure, serviceName + " " + operation + " failed",
      Options(Some([Field("service", JStr(serviceName)), Field("operation", JStr(operation))]), originalError))
  }

  function ConnectionFailure(serviceName: string, originalError: Option<Cause>): (e: AppError)
    ensures WellFormed(e) && e.kind == Infrastructure
    ensures e.message == "Connection to " + serviceName + " failed"
    ensures e.originalError == originalError
    ensures Lookup(e.context, "type") == JStr("connection")
  {
    NewError(Infrastructure, "Connection to " + serviceName + " failed",
      Options(Some([Field("service", JStr(serviceName)), Field("type", JStr("connection"))]), originalError))
  }

  function InternalFailure(message: string, originalError: Option<Cause>): (e: AppError)
    ensures WellFormed(e) && e.kind == Infrastructure && e.message == message
    ensures e.originalError == originalError
    ensures e.context == [Field("type", JStr("internal"))]
  {
    NewError(Infrastructure, message, Options(Some([Field("type", JStr("internal"))]), originalError))
  }

  // --------------------------------------------------- ExternalServiceError

  /** `ExternalServiceError.api`; an absent status code is `undefined`. */
  function ExternalApiFailure(serviceName: string, endpoint: string, statusCode: Option<int>,
                              originalError: Option<Cause>): (e: AppError)
    ensures WellFormed(e) && e.kind == ExternalService && e.statusCode == 502
    ensures e.message == serviceName + " API call failed"
    ensures e.originalError == originalError
    ensures Lookup(e.context, "statusCode") == if statusCode.Some? then JNum(statusCode.value) else JUndefined
  {
    NewError(ExternalService, serviceName + " API call failed",
      Options(Some([Field("service", JStr(serviceName)), Field("endpoint", JStr(endpoint)),
        Field("statusCode", if statusCode.Some? then JNum(statusCode.value) else JUndefined)]), originalError))
  }

  function ExternalTimeout(serviceName: string, operation: string): (e: AppError)
    ensures WellFormed(e) && e.kind == ExternalService && e.originalError.None?
    ensures e.message == serviceName + " " + operation + " timed out"
    ensures Lookup(e.context, "type") == JStr("timeout")
  {
    NewError(ExternalService, serviceName + " " + operation + " timed out",
      Options(Some([Field("service", JStr(serviceName)), Field("operation", JStr(operation)),
        Field("type", JStr("timeout"))]), None))
  }

  function ExternalUnavailable(serviceName: string): (e: AppError)
    ensures WellFormed(e) && e.kind == ExternalService && e.originalError.None?
    ensures e.message == serviceName + " is currently unavailable"
    ensures Lookup(e.context, "type") == JStr("unavailable")
  {
    NewError(ExternalService, serviceName + " is currently unavailable",
      Options(Some([Field("service", JStr(serviceName)), Field("type", JStr("unavailable"))]), None))
  }

  // --------------------------------------------------------- RateLimitError

  /** `RateLimitError.exceeded`, for an integral limit. */
  function RateLimitExceeded(limit: int, window: string, resource: string): (e: AppError)
    ensures WellFormed(e) && e.kind == RateLimit && e.statusCode == 429
    ensures e.message == "Rate limit exceeded: " + IntToString(limit) + " requests per " + window + " for " + resource
    ensures Lookup(e.context, "limit") == JNum(limit)
  {
    NewError(RateLimit, "Rate limit exceeded: " + IntToString(limit) + " requests per " + window + " for " + resource,
      Options(Some([Field("limit", JNum(limit)), Field("window", JStr(window)), Field("resource", JStr(resource))]), None))
  }

  function QuotaExceeded(quotaType: string, limit: int): (e: AppError)
    ensures WellFormed(e) && e.kind == RateLimit
    ensures e.message == quotaType + " quota exceeded: " + IntToString(limit)
    ensures Lookup(e.context, "type") == JStr("quota")
  {
    NewError(RateLimit, quotaType + " quota exceeded: " + IntToString(limit),
      Options(Some([Field("quotaType", JStr(quotaType)), Field("limit", JNum(limit)), Field("type", JStr("quota"))]), None))
  }

  // ------------------------------------------------------------- exceptions

  /** Whatever a handler can throw, as the exception filter tells them
      apart: a schema failure from the validation pipe (an HTTP 400
      exception carrying its response object and the schema issues), an
      `AppError`, another framework `HttpException` (its status, its
      response, which is text or an object, and its own message), or
      anything else. */
  datatype Exception =
    | ZodValidation(zodResponse: Json, issues: Option<seq<Json>>)
    | App(error: AppError)
    | Http(status: int, response: Json, httpMessage: string)
    | Other(otherMessage: string)

  /** A call that returns a value or throws. */
  datatype Outcome<+T> = Returned(value: T) | Threw(exception: Exception)

  // ------------------------------------------------------------ error chain

  /** `getFullErrorChain`: the error's own line, and a "Caused by" line
      exactly when an original error is attached. */
  function FullErrorChain(e: AppError): (chain: string)
    ensures IsPrefix(e.name + ": " + e.message, chain)
    ensures chain == e.name + ": " + e.message <==> e.originalError.None?
  {
    var head := e.name + ": " + e.message;
    match e.originalError
    case None => head
    case Some(c) =>
      var chain := head + "\n" + ("Caused by: " + c.name + ": " + c.message);
      assert chain[..|head|] == head;
      assert |chain| > |head|;
      chain
  }

  /** When no name or message holds a line break, the chain is one line
      per error: the error's own, then the cause's. */
  lemma ChainLines(e: AppError)
    requires '\n' !in e.name && '\n' !in e.message
    requires e.originalError.Some? ==> '\n' !in e.originalError.value.name && '\n' !in e.originalError.value.message
    ensures e.originalError.None? ==> Split(FullErrorChain(e), '\n') == [e.name + ": " + e.message]
    ensures e.originalError.Some? ==> (Split(FullErrorChain(e), '\n') ==
      [e.name + ": " + e.message, "Caused by: " + e.originalError.value.name + ": " + e.originalError.value.message])
  {
    var head := e.name + ": " + e.message;
    NoBreakInLine(e.name, e.message);
    SplitWithoutSep(head, '\n');
    if e.originalError.Some? {
      var c := e.originalError.value;
      var line := "Caused by: " + c.name + ": " + c.message;
      NoBreakInLine(c.name, c.message);
      assert '\n' !in "Caused by: ";
      assert FullErrorChain(e) == head + ['\n'] + line;
      SplitPair(head, line, '\n');
    }
  }

  /** A line `<name>: <message>` of the chain holds no line break when
      its name and message hold none. */
  lemma NoBreakInLine(name: string, message: string)
    requires '\n' !in name && '\n' !in message
    ensures '\n' !in name + ": " + message
  {
    assert '\n' !in ": ";
  }
}
