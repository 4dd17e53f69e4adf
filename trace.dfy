/** `TraceContextManager` and the `WithTrace` decorator: the request's trace
    context, how it is built from request headers, how it is updated, and
    which part of it goes into every log entry. The context store is one
    field of the manager; `AsyncLocalStorage` propagation across
    asynchronous calls is left out, and the generated trace id is a
    parameter. */
module Trace {
  import opened Wrappers
  import opened Json
  import opened Logging

  datatype TraceContext = TraceContext(
    traceId: string, userId: Option<string>, operation: Option<string>,
    requestMethod: Option<string>, requestPath: Option<string>,
    userAgent: Option<string>, ip: Option<string>)

  /** `Partial<TraceContext>`: the properties an update gives. */
  datatype TracePatch = TracePatch(
    traceId: Option<string>, userId: Option<string>, operation: Option<string>,
    requestMethod: Option<string>, requestPath: Option<string>,
    userAgent: Option<string>, ip: Option<string>)

  const NO_PATCH := TracePatch(None, None, None, None, None, None, None)

  /** Request headers; a header not sent is absent. */
  type Headers = map<string, string>

  /** `headers[name]` when it is truthy: sent and not empty. */
  function Header(headers: Headers, name: string): (v: Option<string>)
    ensures v.Some? <==> name in headers && headers[name] != ""
    ensures v.Some? ==> v.value == headers[name]
  {
    if name in headers && headers[name] != "" then Some(headers[name]) else None
  }

  /** `createFromHeaders(headers)`, with `generated` the id
      `generateTraceId` would return. */
  function CreateFromHeaders(headers: Headers, generated: string): (c: TraceContext)
    ensures c.traceId == if Header(headers, "x-trace-id").Some? then headers["x-trace-id"] else generated
    ensures c.userId == Header(headers, "x-user-id") && c.operation == Header(headers, "x-operation")
    ensures c.requestMethod == Header(headers, "x-request-method")
    ensures c.requestPath == Header(headers, "x-request-path")
    ensures c.userAgent == Header(headers, "user-agent")
    ensures Header(headers, "x-forwarded-for").Some? ==> c.ip == Header(headers, "x-forwarded-for")
    ensures Header(headers, "x-forwarded-for").None? ==> c.ip == Header(headers, "x-real-ip")
    ensures c.ip.Some? ==> c.ip.value != ""
  {
    var forwarded := Header(headers, "x-forwarded-for");
    TraceContext(
      Header(headers, "x-trace-id").GetOr(generated),
      Header(headers, "x-user-id"), Header(headers, "x-operation"),
      Header(headers, "x-request-method"), Header(headers, "x-request-path"),
      Header(headers, "user-agent"),
      if forwarded.Some? then forwarded else Header(headers, "x-real-ip"))
  }

  /** `Object.assign(current, updates)`: each given property replaces the
      current one. */
  function Patch(c: TraceContext, p: TracePatch): (r: TraceContext)
    ensures p == NO_PATCH ==> r == c
    ensures p.operation.Some? ==> r.operation == p.operation
    ensures p.operation.None? ==> r.operation == c.operation
    ensures p.traceId.None? ==> r.traceId == c.traceId
  {
    TraceContext(
      p.traceId.GetOr(c.traceId),
      if p.userId.Some? then p.userId else c.userId,
      if p.operation.Some? then p.operation else c.operation,
      if p.requestMethod.Some? then p.requestMethod else c.requestMethod,
      if p.requestPath.Some? then p.requestPath else c.requestPath,
      if p.userAgent.Some? then p.userAgent else c.userAgent,
      if p.ip.Some? then p.ip else c.ip)
  }

  /** Applying the same update twice is applying it once. */
  lemma PatchIdempotent(c: TraceContext, p: TracePatch)
    ensures Patch(Patch(c, p), p) == Patch(c, p)
  {
  }

  function OptStr(o: Option<string>): Json {
    if o.Some? then JStr(o.value) else JUndefined
  }

  /** The logged properties of a context, assigned in order. */
  function LoggingFields(t: TraceContext): seq<Field> {
    var o := Assign([], "traceId", JStr(t.traceId));
    var o := Assign(o, "userId", OptStr(t.userId));
    var o := Assign(o, "operation", OptStr(t.operation));
    var o := Assign(o, "requestMethod", OptStr(t.requestMethod));
    var o := Assign(o, "requestPath", OptStr(t.requestPath));
    Assign(o, "ip", OptStr(t.ip))
  }

  lemma LoggingFieldsRead(t: TraceContext)
    ensures var r := LoggingFields(t);
      DistinctKeys(r) &&
      Lookup(r, "traceId") == JStr(t.traceId) && Lookup(r, "userId") == OptStr(t.userId) &&
      Lookup(r, "operation") == OptStr(t.operation) &&
      Lookup(r, "requestMethod") == OptStr(t.requestMethod) &&
      Lookup(r, "requestPath") == OptStr(t.requestPath) && Lookup(r, "ip") == OptStr(t.ip)
  {
    var o1 := Assign([], "traceId", JStr(t.traceId));
    var o2 := Assign(o1, "userId", OptStr(t.userId));
    var o3 := Assign(o2, "operation", OptStr(t.operation));
    assert Lookup(o3, "traceId") == JStr(t.traceId) && Lookup(o3, "userId") == OptStr(t.userId);
    var o4 := Assign(o3, "requestMethod", OptStr(t.requestMethod));
    var o5 := Assign(o4, "requestPath", OptStr(t.requestPath));
    assert Lookup(o5, "traceId") == JStr(t.traceId) && Lookup(o5, "userId") == OptStr(t.userId);
    assert Lookup(o5, "operation") == OptStr(t.operation) && Lookup(o5, "requestMethod") == OptStr(t.requestMethod);
  }

  lemma LoggingFieldsKeys(t: TraceContext, k: string)
    ensures HasKey(LoggingFields(t), k) <==>
      k == "traceId" || k == "userId" || k == "operation" || k == "requestMethod" || k == "requestPath" || k == "ip"
  {
  }

  /** `getContextForLogging()`: nothing without a context, otherwise
      traceId, userId, operation, requestMethod, requestPath and ip, in that
      order (an absent one as `undefined`); the user agent is never
      included. */
  function ContextForLogging(c: Option<TraceContext>): (r: seq<Field>)
    ensures c.None? ==> r == []
    ensures DistinctKeys(r) && !HasKey(r, "userAgent")
    ensures c.Some? ==>
      Lookup(r, "traceId") == JStr(c.value.traceId) && Lookup(r, "userId") == OptStr(c.value.userId) &&
      Lookup(r, "operation") == OptStr(c.value.operation) &&
      Lookup(r, "requestMethod") == OptStr(c.value.requestMethod) &&
      Lookup(r, "requestPath") == OptStr(c.value.requestPath) && Lookup(r, "ip") == OptStr(c.value.ip)
    ensures c.Some? ==> forall k :: HasKey(r, k) <==>
      k == "traceId" || k == "userId" || k == "operation" || k == "requestMethod" || k == "requestPath" || k == "ip"
  {
    match c
    case None => []
    case Some(t) =>
      LoggingFieldsRead(t);
      LoggingFieldsKeys(t, "userAgent");
      assert forall k :: HasKey(LoggingFields(t), k) <==>
        k == "traceId" || k == "userId" || k == "operation" || k == "requestMethod" || k == "requestPath" || k == "ip"
      by {
        forall k ensures HasKey(LoggingFields(t), k) <==>
          k == "traceId" || k == "userId" || k == "operation" || k == "requestMethod" || k == "requestPath" || k == "ip"
        {
          LoggingFieldsKeys(t, k);
        }
      }
      LoggingFields(t)
  }

  /** A request's headers reach the JSON log entry: the trace id, and every
      non-empty user id header, unless the log data sets its own. */
  lemma HeadersReachLogEntry(headers: Headers, generated: string, info: seq<Field>, nodeEnv: Option<string>)
    requires DistinctKeys(info) && !HasKey(info, "traceId") && !HasKey(info, "userId")
    ensures var entry := JsonEntry(info, ContextForLogging(Some(CreateFromHeaders(headers, generated))), nodeEnv);
      Lookup(entry, "traceId") == JStr(CreateFromHeaders(headers, generated).traceId) &&
      (Header(headers, "x-user-id").Some? ==> Lookup(entry, "userId") == JStr(headers["x-user-id"]))
  {
    var c := CreateFromHeaders(headers, generated);
    EntryCarriesTrace(info, c, nodeEnv);
  }

  lemma EntryCarriesTrace(info: seq<Field>, c: TraceContext, nodeEnv: Option<string>)
    requires DistinctKeys(info) && !HasKey(info, "traceId") && !HasKey(info, "userId")
    ensures var entry := JsonEntry(info, ContextForLogging(Some(c)), nodeEnv);
      Lookup(entry, "traceId") == JStr(c.traceId) &&
      (c.userId.Some? ==> Lookup(entry, "userId") == JStr(c.userId.value))
  {
    var t := LoggingFields(c);
    assert ContextForLogging(Some(c)) == t;
    LoggingFieldsRead(c);
    LoggingFieldsKeys(c, "traceId");
    EntryReadsKey(info, t, nodeEnv, "traceId");
    LoggingFieldsKeys(c, "userId");
    EntryReadsKey(info, t, nodeEnv, "userId");
  }

  /** The manager's store: the context of the current request, if any. */
  class TraceContextManager {
    var current: Option<TraceContext>

    constructor()
      ensures current.None?
    {
      current := None;
    }

    predicate HasContext()
      reads this
    {
      current.Some?
    }

    /** `getContextForLogging`. */
    function GetContextForLogging(): (r: seq<Field>)
      reads this
      ensures r == ContextForLogging(current)
    {
      ContextForLogging(current)
    }

    /** `updateContext(updates)`: nothing without a context; otherwise the
        updates are merged into it. */
    method UpdateContext(updates: TracePatch)
      modifies this
      ensures current == if old(current).Some? then Some(Patch(old(current).value, updates)) else None
    {
      if current.Some? {
        current := Some(Patch(current.value, updates));
      }
    }

    /** A method decorated with `@WithTrace(operation)` on class
        `className`, named `methodName`: `inner` is the context its body runs
        in. Inside a context, a given operation overwrites the current one
        and the body runs there; outside any context the body runs in a
        fresh context, with the generated id and the operation or
        "<class>.<method>", which ends with the call. */
    method WithTrace(operation: Option<string>, className: string, methodName: string, generated: string)
      returns (inner: TraceContext)
      modifies this
      ensures old(current).Some? && operation.Some? && operation.value != "" ==>
        inner == old(current).value.(operation := operation) && current == Some(inner)
      ensures old(current).Some? && (operation.None? || operation.value == "") ==>
        inner == old(current).value && current == old(current)
      ensures old(current).None? ==>
        current.None? && inner.traceId == generated &&
        inner == TraceContext(generated, None,
          Some(if operation.Some? && operation.value != "" then operation.value else className + "." + methodName),
          None, None, None, None)
    {
      if HasContext() {
        if operation.Some? && operation.value != "" {
          UpdateContext(NO_PATCH.(operation := operation));
        }
        inner := current.value;
      } else {
        var op := if operation.Some? && operation.value != "" then operation.value else className + "." + methodName;
        inner := TraceContext(generated, None, Some(op), None, None, None, None);
      }
    }
  }

  /** Inside a context an operation-less `WithTrace` leaves the context as it
      was; otherwise the operation it sets is always a non-empty name. */
  lemma WithTraceOperationNamed(c: TraceContext, operation: string)
    requires operation != ""
    ensures Patch(c, NO_PATCH.(operation := Some(operation))).operation == Some(operation)
    ensures Patch(c, NO_PATCH.(operation := Some(operation))).traceId == c.traceId
  {
  }
}
