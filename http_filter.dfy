/** `HttpExceptionFilter.catch`: every exception a request handler throws
    becomes one HTTP status and a JSON body `{ status, message[, data] }`,
    where `status` is 'fail' for a client error and 'error' for a server
    error. Logging to the console is left out. */
module HttpFilter {
  import opened Wrappers
  import opened Json
  import opened Errors

  datatype HttpResponse = HttpResponse(statusCode: int, body: Json)

  const VALIDATION_FAILED := "Validation failed"
  const INTERNAL_ERROR_MESSAGE := "An internal server error occurred"

  /** `{ status, message }`, with `data` last when given. */
  function Body(status: string, message: Json, data: Option<Json>): (b: Json)
    ensures b.JObj? && |b.fields| == if data.Some? then 3 else 2
    ensures Lookup(b.fields, "status") == JStr(status) && Lookup(b.fields, "message") == message
    ensures HasKey(b.fields, "data") <==> data.Some?
    ensures data.Some? ==> Lookup(b.fields, "data") == data.value
  {
    var head := [Field("status", JStr(status)), Field("message", message)];
    assert Keys(head) == ["status", "message"] by {
      assert head[1..] == [Field("message", message)];
      assert head[1..][1..] == [];
    }
    match data
    case None => JObj(head)
    case Some(d) =>
      var fields := head + [Field("data", d)];
      assert fields[1..] == [Field("message", message), Field("data", d)];
      assert fields[1..][1..] == [Field("data", d)];
      assert fields[1..][1..][1..] == [];
      assert Keys(fields[1..][1..]) == ["data"];
      assert Keys(fields[1..]) == ["message", "data"];
      assert Keys(fields) == ["status", "message", "data"];
      JObj(fields)
  }

  /** The `status` word of a response body. */
  function StatusWord(r: HttpResponse): Json {
    if r.body.JObj? then Lookup(r.body.fields, "status") else JUndefined
  }

  function MessageOf(r: HttpResponse): Json {
    if r.body.JObj? then Lookup(r.body.fields, "message") else JUndefined
  }

  /** The message of a validation failure: the `message` of the response
      object when it is truthy, otherwise 'Validation failed'. */
  function ZodMessage(response: Json): (m: Json)
    ensures Truthy(m)
    ensures !response.JObj? ==> m == JStr(VALIDATION_FAILED)
  {
    if response.JObj? && Truthy(Lookup(response.fields, "message")) then Lookup(response.fields, "message")
    else JStr(VALIDATION_FAILED)
  }

  /** The message of an `HttpException`: the response object's own
      `message` property when it has one (whatever its value), else the
      response itself when it is a string, else the exception's
      message. */
  function HttpMessage(response: Json, httpMessage: string): (m: Json)
    ensures response.JObj? && HasKey(response.fields, "message") ==> m == Lookup(response.fields, "message")
    ensures response.JStr? ==> m == response
    ensures !response.JStr? && !(response.JObj? && HasKey(response.fields, "message")) ==> m == JStr(httpMessage)
  {
    if response.JObj? && HasKey(response.fields, "message") then Lookup(response.fields, "message")
    else if response.JStr? then response
    else JStr(httpMessage)
  }

  /** `catch(exception)`. The tests run in order: a zod validation
      failure, an `AppError`, an `HttpException`, anything else. */
  function Catch(ex: Exception): (r: HttpResponse)
    ensures r.body.JObj?
    ensures StatusWord(r) == JStr("fail") || StatusWord(r) == JStr("error")
    ensures ex.ZodValidation? ==>
      r.statusCode == 400 && StatusWord(r) == JStr("fail") && MessageOf(r) == ZodMessage(ex.zodResponse) &&
      Lookup(r.body.fields, "data") == JArr(if ex.issues.Some? then ex.issues.value else [])
    ensures ex.App? ==>
      r.statusCode == ex.error.statusCode && StatusWord(r) == JStr("fail") &&
      MessageOf(r) == JStr(CodeName(ex.error.code)) && !HasKey(r.body.fields, "data")
    ensures ex.Http? ==>
      r.statusCode == ex.status && (StatusWord(r) == JStr("error") <==> ex.status >= 500) &&
      MessageOf(r) == HttpMessage(ex.response, ex.httpMessage) && !HasKey(r.body.fields, "data")
    ensures ex.Other? ==>
      r.statusCode == 500 && StatusWord(r) == JStr("error") && MessageOf(r) == JStr(INTERNAL_ERROR_MESSAGE)
  {
    match ex
    case ZodValidation(response, issues) =>
      var data := if issues.Some? then issues.value else [];
      HttpResponse(400, Body("fail", ZodMessage(response), Some(JArr(data))))
    case App(e) =>
      HttpResponse(e.statusCode, Body("fail", JStr(CodeName(e.code)), None))
    case Http(status, response, httpMessage) =>
      HttpResponse(status, Body(if status >= 500 then "error" else "fail", HttpMessage(response, httpMessage), None))
    case Other(_) =>
      HttpResponse(500, Body("error", JStr(INTERNAL_ERROR_MESSAGE), None))
  }

  /** An application error answers with its class's status and code only:
      two errors of the same class give the same response whatever their
      messages, contexts or causes. */
  lemma AppErrorHidesDetails(e1: AppError, e2: AppError)
    requires WellFormed(e1) && WellFormed(e2) && e1.kind == e2.kind
    ensures Catch(App(e1)) == Catch(App(e2))
    ensures Catch(App(e1)).statusCode == StatusOf(e1.kind)
  {
  }

  /** Unlike an `HttpException`, an application error is reported as
      'fail' even when its status is a server error (500 for an
      infrastructure failure, 502 for an external service). */
  lemma ServerAppErrorsAreFail(operation: string, cause: Option<Cause>)
    ensures Catch(App(DatabaseFailure(operation, cause))).statusCode == 500
    ensures StatusWord(Catch(App(DatabaseFailure(operation, cause)))) == JStr("fail")
    ensures StatusWord(Catch(Http(500, JNull, operation))) == JStr("error")
  {
  }

  /** The same for an unavailable external service, answered with 502. */
  lemma ExternalAppErrorIsFail(service: string)
    ensures Catch(App(ExternalUnavailable(service))).statusCode == 502
    ensures StatusWord(Catch(App(ExternalUnavailable(service)))) == JStr("fail")
  {
  }

  /** A failed login answers 401 with code UNAUTHORIZED, not its text. */
  lemma InvalidCredentialsResponse()
    ensures Catch(App(InvalidCredentials())).statusCode == 401
    ensures MessageOf(Catch(App(InvalidCredentials()))) == JStr("UNAUTHORIZED")
    ensures StatusWord(Catch(App(InvalidCredentials()))) == JStr("fail")
  {
  }

  /** A validation failure without a truthy message, and an
      `HttpException` answering with a plain string, as described. */
  lemma MessageDefaults(issues: Option<seq<Json>>, text: string, status: int, httpMessage: string)
    ensures MessageOf(Catch(ZodValidation(JStr(text), issues))) == JStr(VALIDATION_FAILED)
    ensures MessageOf(Catch(ZodValidation(JObj([]), issues))) == JStr(VALIDATION_FAILED)
    ensures MessageOf(Catch(Http(status, JStr(text), httpMessage))) == JStr(text)
    ensures MessageOf(Catch(Http(status, JObj([]), httpMessage))) == JStr(httpMessage)
  {
  }
}
