/** The front end's older route guard (middleware.ts): public pages send a
    signed-in visitor to the dashboard, every other page needs the
    access-token cookie, and no role is checked. */
module EdgeMiddleware {

  import opened Common
  import Proxy

  const PublicRoutes: seq<string> := [Proxy.Login, Proxy.Register]

  /** The role table of the file; `middleware` never reads it. */
  const RoleRoutes: map<string, seq<string>> := map[
    Proxy.AdminHome := ["ADMIN"],
    Proxy.InstructorHome := ["INSTRUCTOR", "ADMIN"],
    Proxy.StudentHome := ["STUDENT", "INSTRUCTOR", "ADMIN"]]

  /** `middleware`: the decision for a path, given the access-token cookie. */
  function Middleware(pathname: string, accessToken: Option<string>): (d: Proxy.Decision)
    ensures pathname in PublicRoutes && Truthy(accessToken) ==> d == Proxy.Redirect(Proxy.Dashboard)
    ensures pathname in PublicRoutes && !Truthy(accessToken) ==> d == Proxy.Pass
    ensures pathname !in PublicRoutes && !Truthy(accessToken) ==> d == Proxy.Redirect(Proxy.Login)
    ensures pathname !in PublicRoutes && Truthy(accessToken) ==> d == Proxy.Pass
  {
    if pathname in PublicRoutes then
      if Truthy(accessToken) then Proxy.Redirect(Proxy.Dashboard) else Proxy.Pass
    else if !Truthy(accessToken) then Proxy.Redirect(Proxy.Login)
    else Proxy.Pass
  }

  /** What a request meets: this guard on a path the matcher selects (the
      same set of paths as the other guard's), otherwise nothing. */
  function Guarded(pathname: string, accessToken: Option<string>): (d: Proxy.Decision)
    ensures !Proxy.Matched(pathname) ==> d == Proxy.Pass
    ensures Proxy.Matched(pathname) ==> d == Middleware(pathname, accessToken)
  {
    if Proxy.Matched(pathname) then Middleware(pathname, accessToken) else Proxy.Pass
  }

  /** A call under `/api` is never sent to the login page, and every page this
      guard redirects to is guarded itself. */
  lemma MatcherScope(accessToken: Option<string>, pathname: string, rest: string)
    ensures Guarded("/api" + rest, accessToken) == Proxy.Pass
    ensures Guarded(pathname, accessToken).Redirect? ==> Proxy.Matched(Guarded(pathname, accessToken).to)
  {
    Proxy.PagesMatched();
    assert Proxy.StartsWith("/api" + rest, "/api") by {
      assert ("/api" + rest)[..4] == "/api";
    }
  }

  /** A redirect of this guard is followed by a page it lets through. */
  lemma OneRedirectSettles(pathname: string, accessToken: Option<string>)
    ensures Middleware(pathname, accessToken).Redirect? ==>
      Middleware(Middleware(pathname, accessToken).to, accessToken) == Proxy.Pass
  {
    assert Proxy.Dashboard !in PublicRoutes;
  }

  /** Without a cookie the two guards agree on every page. */
  lemma AgreesWithProxyWithoutToken(pathname: string, accessToken: Option<string>, payload: Proxy.Payload)
    requires !Truthy(accessToken)
    ensures Middleware(pathname, accessToken) == Proxy.Proxy(pathname, accessToken, payload)
  {
  }

  /** With a cookie they differ: this guard sends a signed-in visitor away
      from the login page, and lets any role into the admin area. */
  lemma DiffersFromProxyWithToken()
    ensures Middleware(Proxy.Login, Some("t")) == Proxy.Redirect(Proxy.Dashboard)
    ensures Proxy.Proxy(Proxy.Login, Some("t"), Proxy.Decoded(Some("ADMIN"))) == Proxy.Pass
    ensures Middleware(Proxy.AdminHome, Some("t")) == Proxy.Pass
    ensures Proxy.Proxy(Proxy.AdminHome, Some("t"), Proxy.Decoded(Some("STUDENT"))) == Proxy.Redirect(Proxy.Login)
  {
    assert Proxy.AdminHome !in PublicRoutes;
    assert Proxy.StartsWith(Proxy.AdminHome, Proxy.AdminHome);
  }
}
