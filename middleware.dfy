/** The route guard run before every matched request: a decision from the request path
    and whether a session is present. */
module Middleware {
  import opened Text

  datatype Decision = Next | Redirect(target: string)

  const Dashboard: string := "/dashboard"
  const Login: string := "/login"

  predicate IsAuthPage(pathname: string) {
    StartsWith(pathname, "/login") || StartsWith(pathname, "/register")
  }

  predicate IsPublicPage(pathname: string) {
    pathname == "/" || IsAuthPage(pathname)
  }

  predicate IsApiAuth(pathname: string) {
    StartsWith(pathname, "/api/auth")
  }

  /** The guard, with its early returns in source order. */
  function Route(pathname: string, isLoggedIn: bool): (d: Decision)
    ensures d == Next <==> IsApiAuth(pathname) || (isLoggedIn && !IsAuthPage(pathname)) || (!isLoggedIn && IsPublicPage(pathname))
    ensures d == Redirect(Dashboard) <==> !IsApiAuth(pathname) && isLoggedIn && IsAuthPage(pathname)
    ensures d == Redirect(Login) <==> !IsApiAuth(pathname) && !isLoggedIn && !IsPublicPage(pathname)
  {
    if IsApiAuth(pathname) then Next
    else if isLoggedIn && IsAuthPage(pathname) then Redirect(Dashboard)
    else if !isLoggedIn && !IsPublicPage(pathname) then Redirect(Login)
    else Next
  }

  /** The sign-in API is never redirected. */
  lemma ApiAuthPasses(pathname: string, isLoggedIn: bool)
    requires StartsWith(pathname, "/api/auth")
    ensures Route(pathname, isLoggedIn) == Next
  {
  }

  /** The landing page is open to everyone. */
  lemma RootPasses(isLoggedIn: bool)
    ensures Route("/", isLoggedIn) == Next
  {
    assert !StartsWith("/", "/api/auth");
  }

  /** A redirect's target, requested again in the same login state, passes. */
  lemma {:induction false} NoRedirectLoop(pathname: string, isLoggedIn: bool)
    requires Route(pathname, isLoggedIn).Redirect?
    ensures Route(Route(pathname, isLoggedIn).target, isLoggedIn) == Next
  {
    if isLoggedIn {
      DiffersAt(Dashboard, "/login", 1);
      DiffersAt(Dashboard, "/register", 1);
      DiffersAt(Dashboard, "/api/auth", 1);
    } else {
      assert StartsWith(Login, "/login");
    }
  }

  /** A path that differs from `prefix` at a position both have does not start with it. */
  lemma DiffersAt(s: string, prefix: string, i: nat)
    requires i < |s| && i < |prefix| && s[i] != prefix[i]
    ensures !StartsWith(s, prefix)
  {
  }
}
