/** The five fixed route tables of the request middleware and the
    segment-anchored prefix rule that decides membership in them. */
module Routes {
  import opened Strings

  const PublicRoutes: seq<string> := [
    "/", "/auth/signin", "/auth/signup", "/auth/error", "/auth/verify-request",
    "/about", "/contact", "/terms", "/privacy"
  ]

  const AuthRoutes: seq<string> := [
    "/auth/signin", "/auth/signup", "/auth/error", "/auth/verify-request"
  ]

  const ProtectedRoutes: seq<string> := [
    "/dashboard", "/profile", "/communities", "/books", "/messages", "/settings"
  ]

  const ParentOnlyRoutes: seq<string> := ["/children", "/parent-dashboard"]

  const AdminRoutes: seq<string> := ["/admin"]

  /** A path matches a table entry when it is the entry itself or lies below it,
      i.e. continues with a `/`. */
  predicate Matches(path: string, route: string) {
    path == route || StartsWith(path, route + "/")
  }

  /** Whether any entry of the table matches the path, scanning in table order. */
  function MatchesAny(path: string, table: seq<string>): (r: bool)
    ensures r <==> exists i :: 0 <= i < |table| && Matches(path, table[i])
  {
    if table == [] then false
    else Matches(path, table[0]) || MatchesAny(path, table[1..])
  }

  predicate IsPublicRoute(path: string) { MatchesAny(path, PublicRoutes) }
  predicate IsAuthRoute(path: string) { MatchesAny(path, AuthRoutes) }
  predicate IsProtectedRoute(path: string) { MatchesAny(path, ProtectedRoutes) }
  predicate IsParentOnlyRoute(path: string) { MatchesAny(path, ParentOnlyRoutes) }
  predicate IsAdminRoute(path: string) { MatchesAny(path, AdminRoutes) }

  /** A path that needs a signed-in user: protected, parent-only or admin. */
  predicate IsGatedRoute(path: string) {
    IsProtectedRoute(path) || IsParentOnlyRoute(path) || IsAdminRoute(path)
  }

  /** Matching is anchored at a segment boundary: an entry followed by more text
      matches exactly when that text is empty or starts a new segment. */
  lemma {:induction false} SegmentBoundary(route: string, rest: string)
    ensures Matches(route + rest, route) <==> rest == [] || rest[0] == '/'
  {
    var path := route + rest;
    if rest == [] {
      assert path == route;
    } else if rest[0] == '/' {
      assert path[..|route + "/"|] == route + "/";
    } else {
      assert path[|route|] == rest[0];
    }
  }

  /** `/books2` is not below `/books`, while `/books/1` is. */
  lemma NearMissIsNoMatch()
    ensures !Matches("/books2", "/books")
    ensures Matches("/books/1", "/books")
  {
    SegmentBoundary("/books", "2");
    assert "/books2" == "/books" + "2";
    SegmentBoundary("/books", "/1");
    assert "/books/1" == "/books" + "/1";
  }

  /** The root entry only matches the root itself and paths that begin with `//`. */
  lemma {:induction false} RootEntryMatches(path: string)
    ensures Matches(path, "/") <==> path == "/" || StartsWith(path, "//")
  {
    assert "/" + "/" == "//";
  }

  /** Two entries that both match one path are nested: the shorter one matches the longer. */
  lemma {:induction false} MatchingEntriesNest(path: string, a: string, b: string)
    requires Matches(path, a) && Matches(path, b) && |a| <= |b|
    ensures Matches(b, a)
  {
    if path == b {
      if path != a {
        assert b[..|a + "/"|] == path[..|a + "/"|];
      }
    } else {
      assert b + "/" == path[..|b| + 1];
      assert |a| < |b| + 1;
      if path == a {
        assert false;
      } else if |a| == |b| {
        assert a == path[..|a|] == b;
      } else {
        assert b[..|a| + 1] == path[..|a| + 1] == a + "/";
      }
    }
  }
}
