/** The front end's route guard (proxy.ts): an ordered chain of tests on the
    path, the access-token cookie and the role read from the token, answering
    with a pass-through or a redirect. */
module Proxy {

  import opened Common

  datatype Decision = Pass | Redirect(to: string)

  /** The token's payload as the guard reads it: unreadable (the decode
      throws), or read with the role it carries, if any. Decoding is not part
      of this model. */
  datatype Payload = Undecodable | Decoded(role: Option<string>)

  const Login := "/login"
  const Register := "/register"
  const Root := "/"
  const Dashboard := "/dashboard"
  const AdminHome := "/admin"
  const InstructorHome := "/instructor"
  const StudentHome := "/student"

  /** `pathname.startsWith(prefix)`. */
  predicate StartsWith(s: string, prefix: string)
  {
    prefix <= s
  }

  predicate IsPublic(pathname: string)
  {
    pathname == Login || pathname == Register
  }

  /** `proxy`: the decision for a path, given the cookie and its payload. */
  function Proxy(pathname: string, token: Option<string>, payload: Payload): (d: Decision)
    ensures IsPublic(pathname) ==> d == Pass
    ensures pathname == Root ==> d == Redirect(if Truthy(token) then Dashboard else Login)
    ensures !IsPublic(pathname) && !Truthy(token) ==> d == Redirect(Login)
    ensures !IsPublic(pathname) && pathname != Root && Truthy(token) && payload.Undecodable? ==> d == Redirect(Login)
    ensures pathname == Dashboard && Truthy(token) && payload.Decoded? ==>
      d == Redirect(if payload.role == Some("ADMIN") then AdminHome
                    else if payload.role == Some("INSTRUCTOR") then InstructorHome
                    else StudentHome)
    ensures !IsPublic(pathname) && pathname != Root && pathname != Dashboard && Truthy(token)
            && payload.Decoded? && !StartsWith(pathname, AdminHome) && !StartsWith(pathname, InstructorHome)
            ==> d == Pass
  {
    if IsPublic(pathname) then Pass
    else if pathname == Root then
      if !Truthy(token) then Redirect(Login) else Redirect(Dashboard)
    else if !Truthy(token) then Redirect(Login)
    else match payload
      case Undecodable => Redirect(Login)
      case Decoded(role) =>
        if pathname == Dashboard then
          if role == Some("ADMIN") then Redirect(AdminHome)
          else if role == Some("INSTRUCTOR") then Redirect(InstructorHome)
          else Redirect(StudentHome)
        else if StartsWith(pathname, AdminHome) && role != Some("ADMIN") then Redirect(Login)
        else if StartsWith(pathname, InstructorHome) && role != Some("INSTRUCTOR") && role != Some("ADMIN") then Redirect(Login)
        else Pass
  }

  /** `config.matcher`: Next.js runs the guard only on paths whose text after
      the leading `/` does not begin with `_next/static`, `_next/image`,
      `favicon.ico` or `api`. */
  predicate Matched(pathname: string)
  {
    && !StartsWith(pathname, "/_next/static") && !StartsWith(pathname, "/_next/image")
    && !StartsWith(pathname, "/favicon.ico") && !StartsWith(pathname, "/api")
  }

  /** What a request meets: the guard on a matched path, while an unmatched
      path goes through untouched, with or without a cookie. */
  function Guarded(pathname: string, token: Option<string>, payload: Payload): (d: Decision)
    ensures !Matched(pathname) ==> d == Pass
    ensures Matched(pathname) ==> d == Proxy(pathname, token, payload)
  {
    if Matched(pathname) then Proxy(pathname, token, payload) else Pass
  }

  /** The application's pages are all guarded. */
  lemma PagesMatched()
    ensures Matched(Login) && Matched(Register) && Matched(Root) && Matched(Dashboard)
    ensures Matched(AdminHome) && Matched(InstructorHome) && Matched(StudentHome)
  {
    assert Login[1] == 'l' && Register[1] == 'r' && Dashboard[1] == 'd';
    assert InstructorHome[1] == 'i' && StudentHome[1] == 's';
    assert AdminHome[2] == 'd' && "/api"[2] == 'p';
  }

  /** Every page the guard redirects to is guarded itself, and a call under
      `/api` is never redirected, whatever the cookie. */
  lemma MatcherScope(pathname: string, token: Option<string>, payload: Payload, rest: string)
    ensures Guarded(pathname, token, payload).Redirect? ==> Matched(Guarded(pathname, token, payload).to)
    ensures Guarded("/api" + rest, token, payload) == Pass
  {
    PagesMatched();
    assert StartsWith("/api" + rest, "/api") by {
      assert ("/api" + rest)[..4] == "/api";
    }
  }

  /** Pages under /admin and /instructor: who gets through with a readable token. */
  lemma AreaAccess(pathname: string, token: string, role: Option<string>)
    requires token != "" && pathname != Dashboard
    ensures StartsWith(pathname, AdminHome) ==>
      (Proxy(pathname, Some(token), Decoded(role)) == Pass <==> role == Some("ADMIN"))
    ensures StartsWith(pathname, InstructorHome) ==>
      (Proxy(pathname, Some(token), Decoded(role)) == Pass <==> role == Some("INSTRUCTOR") || role == Some("ADMIN"))
  {
    if StartsWith(pathname, AdminHome) {
      assert pathname[..|AdminHome|] == AdminHome;
      assert pathname[1] == 'a' && |pathname| >= |AdminHome|;
      assert pathname != Login && pathname != Register && pathname != Root;
    }
    if StartsWith(pathname, InstructorHome) {
      assert pathname[..|InstructorHome|] == InstructorHome;
      assert pathname[1] == 'i' && |pathname| >= |InstructorHome|;
      assert pathname != Login && pathname != Register && pathname != Root;
      assert !StartsWith(pathname, AdminHome) by {
        assert pathname[1] != AdminHome[1];
      }
    }
  }

  /** The area tests are plain prefixes: a page that merely begins with
      "/admin" is guarded as an admin page. */
  lemma PrefixNotSegment()
    ensures Proxy("/administrator", Some("t"), Decoded(Some("STUDENT"))) == Redirect(Login)
  {
    assert StartsWith("/administrator", AdminHome);
  }

  /** Following the guard's redirects with the same cookie ends in a page it
      lets through after at most two redirects, and no redirect points back
      at the page it came from. */
  lemma RedirectsSettle(pathname: string, token: Option<string>, payload: Payload)
    ensures Proxy(pathname, token, payload).Redirect? ==> Proxy(pathname, token, payload).to != pathname
    ensures var d1 := Proxy(pathname, token, payload);
      d1.Redirect? ==>
        var d2 := Proxy(d1.to, token, payload);
        d2 == Pass || (d2.Redirect? && Proxy(d2.to, token, payload) == Pass)
  {
    var d1 := Proxy(pathname, token, payload);
    if d1.Redirect? {
      assert StartsWith(AdminHome, AdminHome) && StartsWith(InstructorHome, InstructorHome);
      assert !StartsWith(StudentHome, AdminHome) && !StartsWith(StudentHome, InstructorHome) by {
        assert StudentHome[1] != AdminHome[1] && StudentHome[1] != InstructorHome[1];
      }
      assert !StartsWith(InstructorHome, AdminHome) by {
        assert InstructorHome[1] != AdminHome[1];
      }
      assert !StartsWith(AdminHome, InstructorHome) by {
        assert InstructorHome[1] != AdminHome[1];
      }
    }
  }
}
