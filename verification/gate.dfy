/** The request access gate: the middleware callback that turns a request path,
    its query string and the session into a navigation decision. */
module Gate {
  import opened Strings
  import opened Routes
  import opened Optional

  /** The part of a signed-in session the gate reads: the user's parent flag,
      where the user and the flag may each be absent. */
  datatype SessionUser = SessionUser(isParent: Option<bool>)
  datatype Session = Session(user: Option<SessionUser>)

  datatype AuthContext = AuthContext(isLoggedIn: bool, isParent: bool)

  /** The outcome of one request: let it through, or redirect to `pathname + search`
      on the same origin. */
  datatype Decision = Allow | Redirect(pathname: string, search: string)

  const DashboardPath := "/dashboard"
  const SignInPath := "/auth/signin"
  const UnauthorizedPath := "/unauthorized"

  /** The query of the sign-in redirect, carrying the encoded original location. */
  function CallbackQuery(encodedCallback: string): string {
    "?callbackUrl=" + encodedCallback
  }

  /** Reduces the session to two flags: signed in when any session is present,
      parent only when its user carries a parent flag that is true. */
  function ContextOf(auth: Option<Session>): (c: AuthContext)
    ensures c.isLoggedIn <==> auth.Some?
    ensures c.isParent ==> c.isLoggedIn
    ensures c.isParent <==> auth.Some? && auth.value.user.Some? && auth.value.user.value.isParent == Some(true)
  {
    match auth
    case None => AuthContext(false, false)
    case Some(session) =>
      var parent := match session.user
        case None => false
        case Some(user) => user.isParent == Some(true);
      AuthContext(true, parent)
  }

  /** The first-match-wins cascade of the middleware; `encode` stands for
      `encodeURIComponent`. */
  function Decide(pathname: string, search: string, ctx: AuthContext, encode: string -> string): (d: Decision)
    ensures d == Allow
         || d == Redirect(DashboardPath, "")
         || d == Redirect(UnauthorizedPath, "")
         || d == Redirect(SignInPath, CallbackQuery(encode(pathname + search)))
  {
    if IsAuthRoute(pathname) then
      if ctx.isLoggedIn then Redirect(DashboardPath, "") else Allow
    else if IsPublicRoute(pathname) then
      Allow
    else if IsProtectedRoute(pathname) || IsParentOnlyRoute(pathname) || IsAdminRoute(pathname) then
      if !ctx.isLoggedIn then Redirect(SignInPath, CallbackQuery(encode(pathname + search)))
      else if IsParentOnlyRoute(pathname) && !ctx.isParent then Redirect(UnauthorizedPath, "")
      else if IsAdminRoute(pathname) && !ctx.isParent then Redirect(UnauthorizedPath, "")
      else Allow
    else
      Allow
  }

  /** Every auth route is also listed as public. */
  lemma {:induction false} AuthRoutesArePublic(path: string)
    requires IsAuthRoute(path)
    ensures IsPublicRoute(path)
  {
    var i :| 0 <= i < |AuthRoutes| && Matches(path, AuthRoutes[i]);
    assert AuthRoutes[i] == PublicRoutes[i + 1];
  }

  /** Two strings that differ within their common length do not match one another. */
  lemma DifferingEntriesDoNotNest(a: string, b: string, k: nat)
    requires k < |a| && k < |b| && a[k] != b[k]
    ensures !Matches(a, b) && !Matches(b, a)
  {
  }

  /** A path whose second character is not `/` and differs from that of every
      entry other than the root matches no entry of the table. */
  lemma {:induction false} NoEntryMatches(path: string, table: seq<string>)
    requires 2 <= |path| && path[1] != '/'
    requires forall i :: 0 <= i < |table| ==> table[i] == "/" || (2 <= |table[i]| && table[i][1] != path[1])
    ensures !MatchesAny(path, table)
  {
    forall i | 0 <= i < |table|
      ensures !Matches(path, table[i])
    {
      if table[i] == "/" {
        RootEntryMatches(path);
        assert path[..2] != "//";
      } else {
        DifferingEntriesDoNotNest(path, table[i], 1);
      }
    }
  }

  /** No public entry and no gated entry lie below one another. */
  lemma {:induction false} PublicAndGatedEntriesDoNotNest(a: string, b: string)
    requires a in PublicRoutes
    requires b in ProtectedRoutes || b in ParentOnlyRoutes || b in AdminRoutes
    ensures !Matches(a, b) && !Matches(b, a)
  {
    if a == "/" {
      assert b[1] != '/';
      RootEntryMatches(b);
      assert !StartsWith(b, "//") by { assert b[..2] != "//"; }
    } else if a[1] != b[1] {
      DifferingEntriesDoNotNest(a, b, 1);
    } else if a[2] != b[2] {
      DifferingEntriesDoNotNest(a, b, 2);
    } else {
      DifferingEntriesDoNotNest(a, b, 3);
    }
  }

  /** No path is both public and gated. */
  lemma {:induction false} PublicAndGatedAreDisjoint(path: string)
    ensures !(IsPublicRoute(path) && IsGatedRoute(path))
  {
    if IsPublicRoute(path) && IsGatedRoute(path) {
      var i :| 0 <= i < |PublicRoutes| && Matches(path, PublicRoutes[i]);
      var b: string;
      if IsProtectedRoute(path) {
        var j :| 0 <= j < |ProtectedRoutes| && Matches(path, ProtectedRoutes[j]);
        b := ProtectedRoutes[j];
      } else if IsParentOnlyRoute(path) {
        var j :| 0 <= j < |ParentOnlyRoutes| && Matches(path, ParentOnlyRoutes[j]);
        b := ParentOnlyRoutes[j];
      } else {
        var j :| 0 <= j < |AdminRoutes| && Matches(path, AdminRoutes[j]);
        b := AdminRoutes[j];
      }
      PublicAndGatedEntriesDoNotNest(PublicRoutes[i], b);
      if |PublicRoutes[i]| <= |b| {
        MatchingEntriesNest(path, PublicRoutes[i], b);
      } else {
        MatchingEntriesNest(path, b, PublicRoutes[i]);
      }
    }
  }

  /** Auth routes win over public ones: a signed-in user is sent to the dashboard
      and anyone else is let in, although every auth route is public too. */
  lemma {:induction false} AuthRoutePrecedence(path: string, search: string, ctx: AuthContext, encode: string -> string)
    requires IsAuthRoute(path)
    ensures IsPublicRoute(path)
    ensures ctx.isLoggedIn ==> Decide(path, search, ctx, encode) == Redirect(DashboardPath, "")
    ensures !ctx.isLoggedIn ==> Decide(path, search, ctx, encode) == Allow
  {
    AuthRoutesArePublic(path);
  }

  /** A public route that is not an auth route is open to every caller. */
  lemma PublicRouteAllows(path: string, search: string, ctx: AuthContext, encode: string -> string)
    requires IsPublicRoute(path) && !IsAuthRoute(path)
    ensures Decide(path, search, ctx, encode) == Allow
  {
  }

  /** `/about` is public and not an auth route, so it is allowed in every context. */
  lemma {:induction false} AboutIsOpen(search: string, ctx: AuthContext, encode: string -> string)
    ensures Decide("/about", search, ctx, encode) == Allow
  {
    assert Matches("/about", PublicRoutes[5]);
    forall e | e in AuthRoutes
      ensures !Matches("/about", e)
    {
      DifferingEntriesDoNotNest("/about", e, 2);
    }
    PublicRouteAllows("/about", search, ctx, encode);
  }

  /** A signed-out caller on any gated path is sent to sign in, with the original
      path and query as the callback; the parent flag plays no part. */
  lemma {:induction false} SignedOutGatedGoesToSignIn(path: string, search: string, ctx: AuthContext, encode: string -> string)
    requires IsGatedRoute(path) && !ctx.isLoggedIn
    ensures Decide(path, search, ctx, encode) == Redirect(SignInPath, CallbackQuery(encode(path + search)))
  {
    PublicAndGatedAreDisjoint(path);
    if IsAuthRoute(path) {
      AuthRoutesArePublic(path);
    }
  }

  /** A signed-in caller without the parent flag is turned away from parent-only
      and admin paths. */
  lemma {:induction false} NonParentIsUnauthorized(path: string, search: string, ctx: AuthContext, encode: string -> string)
    requires IsParentOnlyRoute(path) || IsAdminRoute(path)
    requires ctx.isLoggedIn && !ctx.isParent
    ensures Decide(path, search, ctx, encode) == Redirect(UnauthorizedPath, "")
  {
    PublicAndGatedAreDisjoint(path);
    if IsAuthRoute(path) {
      AuthRoutesArePublic(path);
    }
  }

  /** A signed-in caller reaches a path that is only protected, parent or not. */
  lemma {:induction false} SignedInReachesProtected(path: string, search: string, ctx: AuthContext, encode: string -> string)
    requires IsProtectedRoute(path) && !IsParentOnlyRoute(path) && !IsAdminRoute(path)
    requires ctx.isLoggedIn
    ensures Decide(path, search, ctx, encode) == Allow
  {
    PublicAndGatedAreDisjoint(path);
    if IsAuthRoute(path) {
      AuthRoutesArePublic(path);
    }
  }

  /** A signed-in parent reaches every gated path. */
  lemma {:induction false} ParentReachesGated(path: string, search: string, ctx: AuthContext, encode: string -> string)
    requires IsGatedRoute(path)
    requires ctx.isLoggedIn && ctx.isParent
    ensures Decide(path, search, ctx, encode) == Allow
  {
    PublicAndGatedAreDisjoint(path);
    if IsAuthRoute(path) {
      AuthRoutesArePublic(path);
    }
  }

  /** A path in no table is allowed whatever the session (fail-open default). */
  lemma UnlistedIsOpen(path: string, search: string, ctx: AuthContext, encode: string -> string)
    requires !IsPublicRoute(path) && !IsAuthRoute(path) && !IsGatedRoute(path)
    ensures Decide(path, search, ctx, encode) == Allow
  {
  }

  /** `/books2` is in no table, so it falls through to the default. */
  lemma {:induction false} BooksNearMissIsOpen(search: string, ctx: AuthContext, encode: string -> string)
    ensures !IsPublicRoute("/books2") && !IsAuthRoute("/books2") && !IsGatedRoute("/books2")
    ensures Decide("/books2", search, ctx, encode) == Allow
  {
    BooksNearMissInNoTable();
  }

  /** `/books2` matches no entry of any table. */
  lemma {:induction false} BooksNearMissInNoTable()
    ensures !IsPublicRoute("/books2") && !IsAuthRoute("/books2") && !IsGatedRoute("/books2")
  {
    var p := "/books2";
    NoEntryMatches(p, PublicRoutes);
    NoEntryMatches(p, AuthRoutes);
    NoEntryMatches(p, ParentOnlyRoutes);
    NoEntryMatches(p, AdminRoutes);
    BooksNearMissNotProtected();
  }

  /** `/books2` matches no protected entry: it shares only a prefix with `/books`. */
  lemma {:induction false} BooksNearMissNotProtected()
    ensures !IsProtectedRoute("/books2")
  {
    var p := "/books2";
    forall i | 0 <= i < |ProtectedRoutes|
      ensures !Matches(p, ProtectedRoutes[i])
    {
      if i == 3 {
        NearMissIsNoMatch();
      } else {
        DifferingEntriesDoNotNest(p, ProtectedRoutes[i], 1);
      }
    }
  }

  /** The complete outcome table of the gate: which inputs produce each of the four decisions. */
  lemma {:induction false} DecisionOutcomes(path: string, search: string, ctx: AuthContext, encode: string -> string)
    ensures Decide(path, search, ctx, encode) == Redirect(DashboardPath, "")
        <==> IsAuthRoute(path) && ctx.isLoggedIn
    ensures Decide(path, search, ctx, encode) == Redirect(SignInPath, CallbackQuery(encode(path + search)))
        <==> IsGatedRoute(path) && !ctx.isLoggedIn
    ensures Decide(path, search, ctx, encode) == Redirect(UnauthorizedPath, "")
        <==> ctx.isLoggedIn && !ctx.isParent && (IsParentOnlyRoute(path) || IsAdminRoute(path))
    ensures Decide(path, search, ctx, encode) == Allow
        <==> (&& !(IsAuthRoute(path) && ctx.isLoggedIn)
              && !(IsGatedRoute(path) && !ctx.isLoggedIn)
              && !(ctx.isLoggedIn && !ctx.isParent && (IsParentOnlyRoute(path) || IsAdminRoute(path))))
  {
    PublicAndGatedAreDisjoint(path);
    if IsAuthRoute(path) {
      AuthRoutesArePublic(path);
    }
    assert DashboardPath[1] != SignInPath[1] && DashboardPath[1] != UnauthorizedPath[1];
    assert SignInPath[1] != UnauthorizedPath[1];
  }

  /** The dashboard is a protected page and nothing more, so a signed-in caller reaches it. */
  lemma {:induction false} DashboardOpenWhenSignedIn(search: string, ctx: AuthContext, encode: string -> string)
    requires ctx.isLoggedIn
    ensures Decide(DashboardPath, search, ctx, encode) == Allow
  {
    DashboardNotOpenListed();
    DashboardOnlyProtected();
  }

  /** The dashboard is neither a public nor an auth route. */
  lemma {:induction false} DashboardNotOpenListed()
    ensures !IsPublicRoute(DashboardPath) && !IsAuthRoute(DashboardPath)
  {
    NoEntryMatches(DashboardPath, PublicRoutes);
    NoEntryMatches(DashboardPath, AuthRoutes);
  }

  /** The dashboard is protected, but neither parent-only nor admin. */
  lemma {:induction false} DashboardOnlyProtected()
    ensures IsProtectedRoute(DashboardPath)
    ensures !IsParentOnlyRoute(DashboardPath) && !IsAdminRoute(DashboardPath)
  {
    assert Matches(DashboardPath, ProtectedRoutes[0]);
    NoEntryMatches(DashboardPath, ParentOnlyRoutes);
    NoEntryMatches(DashboardPath, AdminRoutes);
  }

  /** The unauthorized page is in no table, so everyone reaches it. */
  lemma {:induction false} UnauthorizedPageOpen(search: string, ctx: AuthContext, encode: string -> string)
    ensures Decide(UnauthorizedPath, search, ctx, encode) == Allow
  {
    UnauthorizedPageNotOpenListed();
    UnauthorizedPageNotGated();
  }

  /** The unauthorized page is neither a public nor an auth route. */
  lemma {:induction false} UnauthorizedPageNotOpenListed()
    ensures !IsPublicRoute(UnauthorizedPath) && !IsAuthRoute(UnauthorizedPath)
  {
    NoEntryMatches(UnauthorizedPath, PublicRoutes);
    NoEntryMatches(UnauthorizedPath, AuthRoutes);
  }

  /** The unauthorized page is in no gated table. */
  lemma {:induction false} UnauthorizedPageNotGated()
    ensures !IsGatedRoute(UnauthorizedPath)
  {
    NoEntryMatches(UnauthorizedPath, ProtectedRoutes);
    NoEntryMatches(UnauthorizedPath, ParentOnlyRoutes);
    NoEntryMatches(UnauthorizedPath, AdminRoutes);
  }

  /** The sign-in page is an auth route, so a signed-out caller reaches it. */
  lemma {:induction false} SignInOpenWhenSignedOut(search: string, ctx: AuthContext, encode: string -> string)
    requires !ctx.isLoggedIn
    ensures Decide(SignInPath, search, ctx, encode) == Allow
  {
    assert Matches(SignInPath, AuthRoutes[0]);
  }

  /** Following any redirect of the gate once, in the same session, is allowed:
      the gate never sends a caller round in a loop. */
  lemma {:induction false} RedirectsSettle(path: string, search: string, ctx: AuthContext, encode: string -> string)
    requires Decide(path, search, ctx, encode).Redirect?
    ensures var d := Decide(path, search, ctx, encode);
            Decide(d.pathname, d.search, ctx, encode) == Allow
  {
    var d := Decide(path, search, ctx, encode);
    DecisionOutcomes(path, search, ctx, encode);
    if d == Redirect(DashboardPath, "") {
      DashboardOpenWhenSignedIn(d.search, ctx, encode);
    } else if d == Redirect(UnauthorizedPath, "") {
      UnauthorizedPageOpen(d.search, ctx, encode);
    } else {
      SignInOpenWhenSignedOut(d.search, ctx, encode);
    }
  }
}
