/**
 * src/middleware.ts: requests to a protected path without a session token
 * are sent to the sign-in page; everything else passes.
 */
module Middleware {
  import Text

  const PROTECTED_ROUTES: seq<string> := ["/dashboard", "/editor", "/your-profile", "/post/create"]
  const SIGN_IN_PATH: string := "/auth/signin"

  /** `routes.some(route => path.startsWith(route))` */
  function SomePrefix(routes: seq<string>, path: string): (b: bool)
    ensures b <==> exists i :: 0 <= i < |routes| && Text.StartsWith(path, routes[i])
    decreases |routes|
  {
    if routes == [] then false
    else Text.StartsWith(path, routes[0]) || SomePrefix(routes[1..], path)
  }

  /** `protectedRoutes.some(route => pathname.startsWith(route))` */
  predicate IsProtected(path: string): (b: bool)
    ensures b <==> exists r :: r in PROTECTED_ROUTES && Text.StartsWith(path, r)
  {
    SomePrefix(PROTECTED_ROUTES, path)
  }

  /** `NextResponse.next()`, or a redirect to the sign-in page with `callbackUrl` set. */
  datatype Decision = Next | Redirect(location: string, callbackUrl: string)

  /** `middleware(req)` for a request with path `pathname`, full URL `url`, and whether a token was found. */
  function Decide(pathname: string, url: string, hasToken: bool): (d: Decision)
    ensures d.Redirect? <==> IsProtected(pathname) && !hasToken
    ensures d.Redirect? ==> d == Redirect(SIGN_IN_PATH, url)
  {
    if IsProtected(pathname) && !hasToken then Redirect(SIGN_IN_PATH, url) else Next
  }

  /** A request with a token always passes, whatever the path. */
  lemma TokenAlwaysPasses(pathname: string, url: string)
    ensures Decide(pathname, url, true) == Next
  {
  }

  /** The protected paths are exactly those beginning with one of the four routes. */
  lemma ProtectedIff(path: string)
    ensures IsProtected(path) <==>
              Text.StartsWith(path, "/dashboard") || Text.StartsWith(path, "/editor")
              || Text.StartsWith(path, "/your-profile") || Text.StartsWith(path, "/post/create")
  {
    assert PROTECTED_ROUTES[0] == "/dashboard" && PROTECTED_ROUTES[1] == "/editor";
    assert PROTECTED_ROUTES[2] == "/your-profile" && PROTECTED_ROUTES[3] == "/post/create";
  }

  /** Plain prefix matching: "/editorial" counts as protected. */
  lemma EditorialIsProtected()
    ensures IsProtected("/editorial")
  {
    assert Text.StartsWith("/editorial", PROTECTED_ROUTES[1]);
  }

  /**
   * `config.matcher`: the paths on which Next.js runs the middleware at all.
   * `/x/:path*` matches `/x` and anything below `/x/`; "/post/create" only itself.
   */
  predicate MatcherAccepts(path: string) {
    || path == "/dashboard" || Text.StartsWith(path, "/dashboard/")
    || path == "/editor" || Text.StartsWith(path, "/editor/")
    || path == "/your-profile" || Text.StartsWith(path, "/your-profile/")
    || path == "/post/create"
  }

  /** A path that extends a longer prefix also starts with each shorter one. */
  lemma StartsWithShorter(path: string, prefix: string, more: string)
    requires Text.StartsWith(path, prefix + more)
    ensures Text.StartsWith(path, prefix)
  {
    assert path[..|prefix|] == (prefix + more)[..|prefix|];
  }

  /** Every path the matcher lets through is one the middleware protects. */
  lemma MatchedIsProtected(path: string)
    requires MatcherAccepts(path)
    ensures IsProtected(path)
  {
    ProtectedIff(path);
    if Text.StartsWith(path, "/dashboard/") {
      assert "/dashboard/" == "/dashboard" + "/";
      StartsWithShorter(path, "/dashboard", "/");
    } else if Text.StartsWith(path, "/editor/") {
      assert "/editor/" == "/editor" + "/";
      StartsWithShorter(path, "/editor", "/");
    } else if Text.StartsWith(path, "/your-profile/") {
      assert "/your-profile/" == "/your-profile" + "/";
      StartsWithShorter(path, "/your-profile", "/");
    } else {
      assert path == "/dashboard" || path == "/editor" || path == "/your-profile" || path == "/post/create";
      assert Text.StartsWith(path, path);
    }
  }

  /** What the deployed app does: the middleware only where the matcher lets it run. */
  function Route(pathname: string, url: string, hasToken: bool): (d: Decision)
    ensures d.Redirect? <==> MatcherAccepts(pathname) && !hasToken
    ensures d.Redirect? ==> d == Redirect(SIGN_IN_PATH, url)
  {
    if MatcherAccepts(pathname) then
      MatchedIsProtected(pathname);
      Decide(pathname, url, hasToken)
    else Next
  }

  /** ... so "/editorial", protected by the prefix test, is never redirected: the matcher skips it. */
  lemma EditorialNeverRedirected(url: string, hasToken: bool)
    ensures !MatcherAccepts("/editorial")
    ensures Route("/editorial", url, hasToken) == Next
  {
    assert "/editorial" != "/editor";
    assert !Text.StartsWith("/editorial", "/editor/") by {
      assert "/editorial"[7] == 'i';
    }
    assert !Text.StartsWith("/editorial", "/dashboard/") by {
      assert "/editorial"[1] == 'e';
    }
    assert !Text.StartsWith("/editorial", "/your-profile/") by {
      assert |"/editorial"| < |"/your-profile/"|;
    }
  }
}
