/** app/middleware.ts: the routing decision taken before each page or API request,
    from the path, the `token` cookie and the role inside the verified token. */
module Middleware {
  import opened Seqs
  import opened Text

  /** `NextResponse.next()`, or a redirect to /login or to /dashboard. */
  datatype Decision = Next | RedirectLogin | RedirectDashboard

  const PUBLIC_ROUTES: seq<string> := [
    "/login", "/forgot-password", "/reset-password",
    "/api/auth/login", "/api/auth/forgot-password", "/api/auth/reset-password"]

  const PROTECTED_ROUTES: seq<string> := [
    "/dashboard", "/upload", "/run-campaign", "/slots",
    "/global-search", "/failed-campaign", "/admin", "/change-password"]

  /** `routes.some(route => pathname.startsWith(route))`. */
  function AnyPrefix(pathname: string, routes: seq<string>): (r: bool)
    ensures r <==> exists i :: 0 <= i < |routes| && StartsWith(pathname, routes[i])
  {
    if routes == [] then false
    else StartsWith(pathname, routes[0]) || AnyPrefix(pathname, routes[1..])
  }

  /** The middleware. `token` is the cookie value, "" when there is none (both are
      falsy); `verify` stands for `verifyToken`: `None` when it throws, otherwise the
      token's `role` claim ("" when absent). */
  function Decide(pathname: string, token: string, verify: string -> Option<string>): Decision
  {
    if AnyPrefix(pathname, PUBLIC_ROUTES) then
      if pathname == "/login" && token != "" && verify(token).Some? then RedirectDashboard else Next
    else if !AnyPrefix(pathname, PROTECTED_ROUTES) then Next
    else if token == "" then RedirectLogin
    else match verify(token)
      case None => RedirectLogin
      case Some(role) => if StartsWith(pathname, "/admin") && role != "admin" then RedirectDashboard else Next
  }

  // ---------------------------------------------------------------------------
  // Properties

  /** A public path passes, except exactly "/login" with a token that verifies,
      which is sent to the dashboard; "/login" with a bad token passes. */
  lemma PublicPaths(pathname: string, token: string, verify: string -> Option<string>)
    requires AnyPrefix(pathname, PUBLIC_ROUTES)
    ensures Decide(pathname, token, verify) == RedirectDashboard <==>
      pathname == "/login" && token != "" && verify(token).Some?
    ensures Decide(pathname, token, verify) != RedirectLogin
  {
  }

  /** A path that is neither public nor protected passes, whatever the token. */
  lemma UnlistedPathsPass(pathname: string, token: string, verify: string -> Option<string>)
    requires !AnyPrefix(pathname, PUBLIC_ROUTES) && !AnyPrefix(pathname, PROTECTED_ROUTES)
    ensures Decide(pathname, token, verify) == Next
  {
  }

  /** A protected path with no token, or with a token that fails verification, is
      sent to /login; with a verified token it passes unless it is an /admin path and
      the role is not "admin", which is sent to the dashboard. */
  lemma ProtectedPaths(pathname: string, token: string, verify: string -> Option<string>)
    requires !AnyPrefix(pathname, PUBLIC_ROUTES) && AnyPrefix(pathname, PROTECTED_ROUTES)
    ensures Decide(pathname, token, verify) == RedirectLogin <==> token == "" || verify(token).None?
    ensures Decide(pathname, token, verify) == RedirectDashboard <==>
      token != "" && verify(token).Some? && StartsWith(pathname, "/admin") && verify(token).value != "admin"
  {
  }

  /** The admin area is reached only with a token whose role is "admin". */
  lemma AdminNeedsAdminRole(pathname: string, token: string, verify: string -> Option<string>)
    requires StartsWith(pathname, "/admin")
    requires Decide(pathname, token, verify) == Next
    ensures token != "" && verify(token) == Some("admin")
  {
    AdminPathNotPublic(pathname);
    assert PROTECTED_ROUTES[6] == "/admin";
  }

  /** No public route is a prefix of an /admin path. */
  lemma AdminPathNotPublic(pathname: string)
    requires StartsWith(pathname, "/admin")
    ensures !AnyPrefix(pathname, PUBLIC_ROUTES)
  {
    assert pathname[1] == 'a' && pathname[2] == 'd';
    NoRouteMatches(pathname, PUBLIC_ROUTES, [1, 1, 1, 2, 2, 2]);
  }

  /** A character where the path and the route differ (or the path ending first)
      rules the route out. */
  lemma NotPrefixAt(pathname: string, route: string, k: nat)
    requires k < |route| && (k >= |pathname| || pathname[k] != route[k])
    ensures !StartsWith(pathname, route)
  {
    if |route| <= |pathname| {
      assert pathname[..|route|][k] != route[k];
    }
  }

  /** Ruling out a whole list: one differing position per route. */
  lemma {:induction false} NoRouteMatches(pathname: string, routes: seq<string>, at: seq<nat>)
    requires |at| == |routes|
    requires forall i :: 0 <= i < |routes| ==>
      at[i] < |routes[i]| && (at[i] >= |pathname| || pathname[at[i]] != routes[i][at[i]])
    ensures !AnyPrefix(pathname, routes)
  {
    if routes != [] {
      NotPrefixAt(pathname, routes[0], at[0]);
      NoRouteMatches(pathname, routes[1..], at[1..]);
    }
  }

  /** The page folders "/run-campagian", "/global-seacrh" and "/failed" are not on
      either list, so they pass with no token at all. */
  lemma MisspelledPagesAreOpen(verify: string -> Option<string>)
    ensures Decide("/run-campagian", "", verify) == Next
    ensures Decide("/global-seacrh", "", verify) == Next
    ensures Decide("/failed", "", verify) == Next
  {
    RunCampagianNotPublic();
    RunCampagianNotProtected();
    UnlistedPathsPass("/run-campagian", "", verify);
    GlobalSeacrhNotPublic();
    GlobalSeacrhNotProtected();
    UnlistedPathsPass("/global-seacrh", "", verify);
    FailedNotPublic();
    FailedNotProtected();
    UnlistedPathsPass("/failed", "", verify);
  }

  lemma RunCampagianNotPublic()
    ensures !AnyPrefix("/run-campagian", PUBLIC_ROUTES)
  {
    NoRouteMatches("/run-campagian", PUBLIC_ROUTES, [1, 1, 2, 1, 1, 1]);
  }

  lemma RunCampagianNotProtected()
    ensures !AnyPrefix("/run-campagian", PROTECTED_ROUTES)
  {
    NoRouteMatches("/run-campagian", PROTECTED_ROUTES, [1, 1, 10, 1, 1, 1, 1, 1]);
  }

  lemma GlobalSeacrhNotPublic()
    ensures !AnyPrefix("/global-seacrh", PUBLIC_ROUTES)
  {
    NoRouteMatches("/global-seacrh", PUBLIC_ROUTES, [1, 1, 1, 1, 1, 1]);
  }

  lemma GlobalSeacrhNotProtected()
    ensures !AnyPrefix("/global-seacrh", PROTECTED_ROUTES)
  {
    NoRouteMatches("/global-seacrh", PROTECTED_ROUTES, [1, 1, 1, 1, 11, 1, 1, 1]);
  }

  lemma FailedNotPublic()
    ensures !AnyPrefix("/failed", PUBLIC_ROUTES)
  {
    NoRouteMatches("/failed", PUBLIC_ROUTES, [1, 2, 1, 1, 1, 1]);
  }

  lemma FailedNotProtected()
    ensures !AnyPrefix("/failed", PROTECTED_ROUTES)
  {
    NoRouteMatches("/failed", PROTECTED_ROUTES, [1, 1, 1, 1, 1, 7, 1, 1]);
  }
}
