/** The middleware as deployed: the path pattern decides whether the gate runs,
    and the session is reduced to an authentication context before it does. */
module Middleware {
  import opened Strings
  import opened Routes
  import opened Matcher
  import opened Gate
  import opened Optional

  /** What happens to one request. A request the pattern skips proceeds untouched. */
  function HandleRequest(pathname: string, search: string, auth: Option<Session>, encode: string -> string): (d: Decision)
    ensures !GateRuns(pathname) ==> d == Allow
    ensures d.Redirect? ==> d.pathname in {DashboardPath, SignInPath, UnauthorizedPath}
  {
    if GateRuns(pathname) then Decide(pathname, search, ContextOf(auth), encode) else Allow
  }

  /** Requests for images proceed whatever the route tables and the session say. */
  lemma {:induction false} AssetRequestsProceed(pathname: string, search: string, auth: Option<Session>, encode: string -> string, e: string)
    requires e in AssetExtensions && EndsWith(pathname, "." + e)
    ensures HandleRequest(pathname, search, auth, encode) == Allow
  {
    AssetPathsBypassGate(pathname, e);
  }

  /** A table entry runs the gate when it is `/`, or when it has at least three
      characters, starts with `/`, has a second character other than `f`, does not
      start `/ap`, and holds no dot, underscore or line terminator. */
  lemma {:induction false} PlainEntryRunsGate(entry: string)
    requires entry == "/" || (3 <= |entry| && entry[0] == '/' && entry[1] != 'f' && (entry[1] != 'a' || entry[2] != 'p'))
    requires forall k :: 1 <= k < |entry| ==> IsPlainPathChar(entry[k])
    ensures GateRuns(entry)
  {
    if entry != "/" {
      assert !StartsWith(entry, "/api") by {
        if 4 <= |entry| {
          assert entry[..4][1..3] == entry[1..3];
        }
      }
      assert !StartsWith(entry, "/favicon") by {
        if 8 <= |entry| {
          assert entry[..8][1] == entry[1];
        }
      }
    }
    PlainPathsRunGate(entry);
  }

  /** Every entry of every route table runs the gate. */
  lemma {:induction false} RouteEntriesRunGate(entry: string)
    requires || entry in PublicRoutes || entry in AuthRoutes || entry in ProtectedRoutes
             || entry in ParentOnlyRoutes || entry in AdminRoutes
    ensures GateRuns(entry)
  {
    if entry in PublicRoutes {
      PlainEntryRunsGate(entry);
    } else if entry in AuthRoutes {
      PlainEntryRunsGate(entry);
    } else if entry in ProtectedRoutes {
      PlainEntryRunsGate(entry);
    } else {
      PlainEntryRunsGate(entry);
    }
  }

  /** Without a session every gated entry point sends the caller to sign in,
      carrying the original location. */
  lemma {:induction false} NoSessionOnGatedPathSignsIn(pathname: string, search: string, encode: string -> string)
    requires GateRuns(pathname) && IsGatedRoute(pathname)
    ensures HandleRequest(pathname, search, None, encode)
         == Redirect(SignInPath, CallbackQuery(encode(pathname + search)))
  {
    SignedOutGatedGoesToSignIn(pathname, search, ContextOf(None), encode);
  }

  /** A session whose user carries no parent flag is treated as a non-parent. */
  lemma {:induction false} MissingParentFlagIsNotParent(pathname: string, search: string, encode: string -> string)
    requires GateRuns(pathname) && (IsParentOnlyRoute(pathname) || IsAdminRoute(pathname))
    ensures HandleRequest(pathname, search, Some(Session(None)), encode) == Redirect(UnauthorizedPath, "")
    ensures HandleRequest(pathname, search, Some(Session(Some(SessionUser(None)))), encode) == Redirect(UnauthorizedPath, "")
  {
    NonParentIsUnauthorized(pathname, search, ContextOf(Some(Session(None))), encode);
    NonParentIsUnauthorized(pathname, search, ContextOf(Some(Session(Some(SessionUser(None))))), encode);
  }
}
