/** Vocabulary shared by every module: optional values, identifiers, roles and
    the HTTP errors the services throw with a `status` field. */
module Common {

  datatype Option<T> = None | Some(value: T)

  /** Row identifiers are opaque to the code; the model uses naturals handed
      out by each store's counter. */
  type Id = nat

  /** The three roles of the user table. */
  datatype Role = Student | Instructor | Admin

  /** The role as it is spelled in tokens, messages and role lists. */
  function RoleName(r: Role): string
  {
    match r
    case Student => "STUDENT"
    case Instructor => "INSTRUCTOR"
    case Admin => "ADMIN"
  }

  /** An `Error` thrown with a numeric `status` and a message. */
  datatype HttpError = HttpError(status: nat, message: string)

  datatype Result<T> = Ok(value: T) | Err(error: HttpError)

  /** JavaScript truthiness of an optional string: absent and "" are falsy. */
  predicate Truthy(s: Option<string>)
  {
    s.Some? && s.value != ""
  }

  /** JavaScript `s || fallback` for an optional string. */
  function OrElse(s: Option<string>, fallback: string): (r: string)
    ensures Truthy(s) ==> r == s.value
    ensures !Truthy(s) ==> r == fallback
  {
    if Truthy(s) then s.value else fallback
  }

  /** JavaScript `s || null` for an optional string: "" becomes absent. */
  function OrNull(s: Option<string>): (r: Option<string>)
    ensures r.Some? <==> Truthy(s)
    ensures r.Some? ==> r == s
  {
    if Truthy(s) then s else None
  }

  /** Defaulting an already defaulted value changes nothing: `(s || d) || d`
      is `s || d`, so a caller's own `|| 'system'` and the audit log's agree. */
  lemma DefaultTwice(s: Option<string>, fallback: string)
    ensures OrElse(Some(OrElse(s, fallback)), fallback) == OrElse(s, fallback)
  {
  }

  /** `s || null` keeps the truthiness of `s`, never yields the empty string,
      and applying it again changes nothing. */
  lemma NullIsCanonical(s: Option<string>)
    ensures Truthy(OrNull(s)) <==> Truthy(s)
    ensures OrNull(s) != Some("")
    ensures OrNull(OrNull(s)) == OrNull(s)
    ensures OrElse(OrNull(s), "") == OrElse(s, "")
  {
  }

  /** What the error handler answers when the store reports a unique-constraint
      violation (store error code P2002). */
  const UniqueViolation := HttpError(409, "Record already exists")
}
