/** The error handler and the fallback route (error.middleware.js): every
    error a handler passes on becomes one status and one JSON body. */
module Errors {

  import opened Common
  import Text

  /** One issue of a validation error: the path to the offending field (each
      step already rendered as text) and what is wrong with it. */
  datatype Issue = Issue(path: seq<string>, message: string)

  /** The fields of a thrown error that the handler reads; JavaScript's
      missing fields are `None`. */
  datatype Thrown = Thrown(
    code: Option<string>, name: string, status: Option<int>, statusCode: Option<int>,
    message: Option<string>, stack: string, errors: seq<Issue>)

  datatype Detail = Detail(field: string, message: string)

  /** The JSON body: `error`, and `details` or `stack` when present. */
  datatype Body = Body(error: string, details: Option<seq<Detail>>, stack: Option<string>)

  datatype Reply = Reply(status: int, body: Body)

  /** JavaScript truthiness of an optional number. */
  predicate Set(n: Option<int>)
  {
    n.Some? && n.value != 0
  }

  /** `err.status || err.statusCode || 500`. */
  function StatusOf(err: Thrown): (s: int)
    ensures Set(err.status) ==> s == err.status.value
    ensures !Set(err.status) && Set(err.statusCode) ==> s == err.statusCode.value
    ensures !Set(err.status) && !Set(err.statusCode) ==> s == 500
    ensures s != 0
  {
    if Set(err.status) then err.status.value
    else if Set(err.statusCode) then err.statusCode.value
    else 500
  }

  /** `err.errors.map(...)`: one detail per issue, its path joined with dots. */
  function Details(issues: seq<Issue>): (ds: seq<Detail>)
    ensures |ds| == |issues|
    ensures forall i :: 0 <= i < |issues| ==> ds[i] == Detail(Text.Join(issues[i].path, "."), issues[i].message)
  {
    if issues == [] then []
    else [Detail(Text.Join(issues[0].path, "."), issues[0].message)] + Details(issues[1..])
  }

  const P2002 := "P2002"
  const P2025 := "P2025"

  /** `errorHandler`: the store's unique-constraint and not-found codes come
      first, then validation errors, then the error's own status and message;
      the stack is shown only in development. */
  function ErrorHandler(err: Thrown, development: bool): (r: Reply)
    ensures err.code == Some(P2002) ==> r == Reply(409, Body("Record already exists", None, None))
    ensures err.code == Some(P2025) ==> r == Reply(404, Body("Record not found", None, None))
    ensures err.code != Some(P2002) && err.code != Some(P2025) && err.name == "ZodError" ==>
      r == Reply(400, Body("Validation Error", Some(Details(err.errors)), None))
    ensures err.code != Some(P2002) && err.code != Some(P2025) && err.name != "ZodError" ==>
      && r.status == StatusOf(err)
      && r.body.error == OrElse(err.message, "Internal Server Error")
      && r.body.details.None?
      && (r.body.stack.Some? <==> development)
      && (development ==> r.body.stack == Some(err.stack))
  {
    if err.code == Some(P2002) then Reply(409, Body("Record already exists", None, None))
    else if err.code == Some(P2025) then Reply(404, Body("Record not found", None, None))
    else if err.name == "ZodError" then Reply(400, Body("Validation Error", Some(Details(err.errors)), None))
    else Reply(StatusOf(err), Body(OrElse(err.message, "Internal Server Error"), None,
                                   if development then Some(err.stack) else None))
  }

  const RouteNotFound := "Route not found: "

  /** `notFound`. */
  function NotFound(httpMethod: string, path: string): (r: Reply)
    ensures r.status == 404 && r.body.details.None? && r.body.stack.None?
    ensures r.body.error == RouteNotFound + httpMethod + " " + path
  {
    Reply(404, Body(RouteNotFound + httpMethod + " " + path, None, None))
  }

  /** The 404 text names the route: after its fixed prefix, splitting at the
      space gives back the method and the path (neither holds a space). */
  lemma NotFoundNamesRoute(httpMethod: string, path: string)
    requires ' ' !in httpMethod && ' ' !in path
    ensures var e := NotFound(httpMethod, path).body.error;
      && RouteNotFound <= e
      && Text.Split(e[|RouteNotFound|..], ' ') == [httpMethod, path]
  {
    var e := NotFound(httpMethod, path).body.error;
    assert e[|RouteNotFound|..] == httpMethod + " " + path;
    assert [httpMethod, path][1..] == [path];
    assert Text.Join([httpMethod, path], [' ']) == httpMethod + " " + path;
    Text.SplitJoin([httpMethod, path], ' ');
  }

  /** An error a service throws: `new Error(message)` with `status` set. */
  function Raised(e: HttpError, stack: string): Thrown
  {
    Thrown(None, "Error", Some(e.status), None, Some(e.message), stack, [])
  }

  /** A service's error reaches the client with its own status and message. */
  lemma ServiceErrorsPassThrough(e: HttpError, stack: string, development: bool)
    requires e.status != 0 && e.message != ""
    ensures ErrorHandler(Raised(e, stack), development).status == e.status
    ensures ErrorHandler(Raised(e, stack), development).body.error == e.message
  {
  }

  /** The unique-constraint answer the services report is the handler's. */
  lemma UniqueViolationAnswer(err: Thrown, development: bool)
    requires err.code == Some(P2002)
    ensures ErrorHandler(err, development).status == UniqueViolation.status
    ensures ErrorHandler(err, development).body.error == UniqueViolation.message
  {
  }

  /** A detail's field splits back into the issue's path when no step of the
      path holds a dot. */
  lemma {:induction false} DetailFieldsRecoverPaths(issues: seq<Issue>, i: nat)
    requires i < |issues| && |issues[i].path| >= 1
    requires forall k :: 0 <= k < |issues[i].path| ==> '.' !in issues[i].path[k]
    ensures Text.Split(Details(issues)[i].field, '.') == issues[i].path
  {
    Text.SplitJoin(issues[i].path, '.');
  }
}
