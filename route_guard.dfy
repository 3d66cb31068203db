/** The edge middleware of middleware.ts: a decision over two inputs, whether
    `auth()` found a session and the request's pathname, and the
    `config.matcher` that decides which paths it runs on at all. */
module RouteGuard {
  import opened Text

  const LoginPath := "/login"
  const RegisterPath := "/register"
  const DocumentsPath := "/documents"

  /** `protectedRoutes`, in source order. */
  const ProtectedRoutes: seq<string> := ["/documents", "/videos", "/admin", "/videos/watch", "/documents/uploader"]

  datatype Decision = Redirect(target: string) | Next

  /** `routes.some(route => pathname.startsWith(route))`. */
  predicate SomePrefix(routes: seq<string>, pathname: string)
    decreases |routes|
  {
    routes != [] && (StartsWith(pathname, routes[0]) || SomePrefix(routes[1..], pathname))
  }

  /** `some` holds exactly when one of the routes is a prefix. */
  lemma {:induction false} SomePrefixExists(routes: seq<string>, pathname: string)
    ensures SomePrefix(routes, pathname) <==> exists i :: 0 <= i < |routes| && StartsWith(pathname, routes[i])
    decreases |routes|
  {
    if routes != [] {
      SomePrefixExists(routes[1..], pathname);
      assert forall i :: 1 <= i < |routes| ==> routes[i] == routes[1..][i - 1];
    }
  }

  /** `middleware(req)`: signed-in users are sent from the two entry pages to
      the documents page; anonymous users are sent from the protected routes
      to the login page; everything else proceeds. */
  function Middleware(signedIn: bool, pathname: string): (d: Decision)
    ensures d.Redirect? ==> d.target == DocumentsPath || d.target == LoginPath
    ensures d == Redirect(DocumentsPath) ==> signedIn
    ensures d == Redirect(LoginPath) ==> !signedIn
  {
    if signedIn && (pathname == LoginPath || pathname == RegisterPath) then Redirect(DocumentsPath)
    else if !signedIn && SomePrefix(ProtectedRoutes, pathname) then Redirect(LoginPath)
    else Next
  }

  /** The negative lookahead `(?!api|_next/static|_next/image|favicon.ico)`
      applied to the path after its leading slash; the `.` of `favicon.ico`
      is a regular-expression wildcard. */
  predicate Exempt(rest: string) {
    || StartsWith(rest, "api")
    || StartsWith(rest, "_next/static")
    || StartsWith(rest, "_next/image")
    || (|rest| >= 11 && rest[..7] == "favicon" && rest[8..11] == "ico")
  }

  /** `config.matcher`: `/((?!api|_next/static|_next/image|favicon.ico).*)`. */
  predicate Matched(pathname: string)
    ensures Matched(pathname) ==>
      && StartsWith(pathname, "/") && !StartsWith(pathname, "/api")
      && !StartsWith(pathname, "/_next/static") && !StartsWith(pathname, "/_next/image")
  {
    if |pathname| >= 1 && pathname[0] == '/' then
      AfterSlash(pathname, "api");
      AfterSlash(pathname, "_next/static");
      AfterSlash(pathname, "_next/image");
      !Exempt(pathname[1..])
    else false
  }

  /** Below a leading slash, a path starts with `"/" + p` iff the rest starts with `p`. */
  lemma AfterSlash(pathname: string, p: string)
    requires |pathname| >= 1 && pathname[0] == '/'
    ensures StartsWith(pathname, "/" + p) <==> StartsWith(pathname[1..], p)
  {
    if |p| + 1 <= |pathname| {
      assert pathname[..|p| + 1] == "/" + pathname[1..][..|p|];
    }
  }

  /** The decision a request receives: the middleware's on matched paths, `Next` elsewhere. */
  function Route(signedIn: bool, pathname: string): (d: Decision)
    ensures !Matched(pathname) ==> d == Next
  {
    if Matched(pathname) then Middleware(signedIn, pathname) else Next
  }

  /** No entry page starts with a protected route. */
  lemma EntryPagesUnprotected()
    ensures !SomePrefix(ProtectedRoutes, LoginPath) && !SomePrefix(ProtectedRoutes, RegisterPath)
  {
    SomePrefixExists(ProtectedRoutes, LoginPath);
    SomePrefixExists(ProtectedRoutes, RegisterPath);
    forall i | 0 <= i < |ProtectedRoutes|
      ensures !StartsWith(LoginPath, ProtectedRoutes[i]) && !StartsWith(RegisterPath, ProtectedRoutes[i])
    {
      assert ProtectedRoutes[i][1] in {'d', 'v', 'a'};
      assert LoginPath[1] == 'l' && RegisterPath[1] == 'r';
    }
  }

  /** The entry pages and the landing page lie inside the matcher. */
  lemma PagesMatched()
    ensures Matched(LoginPath) && Matched(RegisterPath) && Matched(DocumentsPath) && Matched("/")
  {
    assert LoginPath[1..][..3] == "log";
    assert RegisterPath[1..][..3] == "reg";
    assert DocumentsPath[1..][..3] == "doc";
  }

  /** A signed-in request to exactly `/login` or `/register` goes to `/documents`. */
  lemma SignedInLeavesEntryPages(pathname: string)
    requires pathname == LoginPath || pathname == RegisterPath
    ensures Route(true, pathname) == Redirect(DocumentsPath)
  {
    PagesMatched();
  }

  /** The entry-page test is exact: a signed-in request is only ever redirected from those two paths. */
  lemma SignedInRedirectOnlyFromEntryPages(pathname: string)
    ensures Middleware(true, pathname).Redirect? <==> pathname == LoginPath || pathname == RegisterPath
  {
  }

  /** Neighbours of the entry pages are not redirected for a signed-in user. */
  lemma EntryMatchIsExact()
    ensures Middleware(true, "/login/x") == Next
    ensures Middleware(true, "/register/") == Next
  {
  }

  /** An anonymous request whose path starts with a protected route goes to `/login`. */
  lemma AnonymousLeavesProtectedRoutes(pathname: string, i: nat)
    requires i < |ProtectedRoutes| && StartsWith(pathname, ProtectedRoutes[i])
    ensures Middleware(false, pathname) == Redirect(LoginPath)
  {
    SomePrefixExists(ProtectedRoutes, pathname);
  }

  /** The prefix test is on raw strings, not path segments. */
  lemma RawPrefixMatch()
    ensures Middleware(false, "/documentsX") == Redirect(LoginPath)
    ensures Middleware(false, "/videos-old") == Redirect(LoginPath)
  {
    assert StartsWith("/documentsX", "/documents");
    assert StartsWith("/videos-old", "/videos");
  }

  /** `/videos/watch` and `/documents/uploader` are redundant entries: the
      first three routes already protect every path the list protects. */
  lemma RedundantRoutes(pathname: string)
    ensures SomePrefix(ProtectedRoutes, pathname) <==> SomePrefix(ProtectedRoutes[..3], pathname)
  {
    SomePrefixExists(ProtectedRoutes, pathname);
    SomePrefixExists(ProtectedRoutes[..3], pathname);
    if StartsWith(pathname, "/videos/watch") {
      StartsWithPrefix(pathname, "/videos", "/videos/watch");
    }
    if StartsWith(pathname, "/documents/uploader") {
      StartsWithPrefix(pathname, "/documents", "/documents/uploader");
    }
  }

  /** The middleware lets a request through exactly when neither rule fires. */
  lemma PassThroughExactly(signedIn: bool, pathname: string)
    ensures Middleware(signedIn, pathname) == Next
        <==> !(signedIn && (pathname == LoginPath || pathname == RegisterPath))
             && !(!signedIn && SomePrefix(ProtectedRoutes, pathname))
  {
  }

  /** The root page always passes. */
  lemma RootPasses(signedIn: bool)
    ensures Route(signedIn, "/") == Next
  {
    SomePrefixExists(ProtectedRoutes, "/");
  }

  /** A redirect target is never itself redirected for the same user: no redirect loop. */
  lemma RedirectTargetsPass(signedIn: bool, pathname: string)
    requires Route(signedIn, pathname).Redirect?
    ensures Route(signedIn, Route(signedIn, pathname).target) == Next
  {
    EntryPagesUnprotected();
  }

  /** A signed-in request reaches every protected page, in particular `/documents`. */
  lemma SignedInReachesProtected(pathname: string)
    requires SomePrefix(ProtectedRoutes, pathname)
    ensures Route(true, pathname) == Next
  {
    EntryPagesUnprotected();
  }

  /** The API routes, including both upload endpoints, are outside the matcher. */
  lemma ApiRoutesUnguarded(pathname: string, signedIn: bool)
    requires StartsWith(pathname, "/api")
    ensures Route(signedIn, pathname) == Next
  {
    assert pathname[1..][..3] == pathname[..4][1..];
  }

  /** The matcher's `.` admits any character between `favicon` and `ico`. */
  lemma FaviconWildcard()
    ensures !Matched("/favicon.ico") && !Matched("/favicon-ico")
  {
    assert "/favicon-ico"[1..][..7] == "favicon";
  }
}
