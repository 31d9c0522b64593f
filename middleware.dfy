/** middleware.ts: requests to the protected sections without a session are
    sent to the login page; everything else passes through unchanged. */
module Middleware {
  import opened Text

  const ProtectedRoutes: seq<string> := ["/dashboard", "/experiments", "/reports"]

  /** `routes.some(route => pathname.startsWith(route))`. */
  function SomePrefix(pathname: string, routes: seq<string>): (b: bool)
    ensures b <==> exists i :: 0 <= i < |routes| && StartsWith(pathname, routes[i])
  {
    if |routes| == 0 then false
    else
      assert forall i :: 1 <= i < |routes| ==> routes[i] == routes[1..][i - 1];
      StartsWith(pathname, routes[0]) || SomePrefix(pathname, routes[1..])
  }

  function IsProtectedRoute(pathname: string): (b: bool)
    ensures b <==> StartsWith(pathname, "/dashboard") || StartsWith(pathname, "/experiments")
                   || StartsWith(pathname, "/reports")
  {
    assert ProtectedRoutes[0] == "/dashboard" && ProtectedRoutes[1] == "/experiments"
           && ProtectedRoutes[2] == "/reports";
    SomePrefix(pathname, ProtectedRoutes)
  }

  datatype Response = Next | RedirectTo(url: string)

  /** `middleware(req)`; the session lookup is the input `hasSession`. The
      redirect target is `new URL('/login', req.url)`, the login page on the
      request's own origin. */
  function Handle(pathname: string, hasSession: bool): (r: Response)
    ensures r.RedirectTo? <==> IsProtectedRoute(pathname) && !hasSession
    ensures r.RedirectTo? ==> r.url == "/login"
    ensures r.Next? <==> !IsProtectedRoute(pathname) || hasSession
  {
    if IsProtectedRoute(pathname) && !hasSession then RedirectTo("/login") else Next
  }

  /** Matching is by raw prefix, not by path segment. */
  lemma PrefixExamples()
    ensures IsProtectedRoute("/dashboardx")
    ensures IsProtectedRoute("/reports/12")
    ensures !IsProtectedRoute("/login")
    ensures !IsProtectedRoute("/display")
    ensures !IsProtectedRoute("/")
  {
    assert StartsWith("/dashboardx", ProtectedRoutes[0]);
    assert StartsWith("/reports/12", ProtectedRoutes[2]);
    assert "/login"[1] == 'l' && "/display"[2] == 'i';
  }

  /** `config.matcher`: `/dashboard/:path*` and its siblings, the section root
      or anything below it. */
  predicate Matched(pathname: string) {
    exists i :: 0 <= i < |ProtectedRoutes| &&
      (pathname == ProtectedRoutes[i] || StartsWith(pathname, ProtectedRoutes[i] + "/"))
  }

  /** Every request the middleware runs for is to a protected path, so without
      a session each of them is redirected. */
  lemma MatchedIsProtected(pathname: string, hasSession: bool)
    requires Matched(pathname)
    ensures IsProtectedRoute(pathname)
    ensures Handle(pathname, hasSession) == (if hasSession then Next else RedirectTo("/login"))
  {
    var i :| 0 <= i < |ProtectedRoutes| &&
      (pathname == ProtectedRoutes[i] || StartsWith(pathname, ProtectedRoutes[i] + "/"));
    assert ProtectedRoutes[i] <= ProtectedRoutes[i] + "/";
  }

  /** `/dashboardx` passes the prefix test but is not a path the middleware is
      configured for. */
  lemma DashboardXNotMatched()
    ensures !Matched("/dashboardx")
  {
    var p := "/dashboardx";
    assert p[10] == 'x' && (ProtectedRoutes[0] + "/")[10] == '/';
    assert p[1] == 'd' && ProtectedRoutes[1][1] == 'e' && ProtectedRoutes[2][1] == 'r';
    assert p != ProtectedRoutes[0];
  }
}
