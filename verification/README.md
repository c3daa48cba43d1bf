# Book-lending web app: access gate and form validators in Dafny

This project models two pure pieces of decision logic from a small book-lending web app and proves their properties.

**The request access gate** is the routing middleware. It has five fixed route tables: public, auth, protected, parent-only and admin. A path matches a table entry when it equals the entry or continues below it with a `/`. A first-match-wins cascade then reduces the path, its query string and the session to one of four outcomes:

- let the request through;
- redirect to `/dashboard`;
- redirect to `/auth/signin?callbackUrl=…`;
- redirect to `/unauthorized`.

A path pattern decides whether the gate runs at all. The gate is skipped for `api…`, `_next/static`, `_next/image`, `favicon` + any one character + `ico` and image-extension paths.

**The form validators** cover:

- the e-mail pattern;
- password rules, with an ordered error list;
- a 0–5 password-strength score mapped to levels 0–4;
- name length after trimming;
- the registration and login form aggregators.

Modules:

- `Strings` (`strings.dfy`): prefix and suffix tests, JavaScript's white-space and line-terminator classes, a first-match search, and `trim`.
- `Optional` (`option.dfy`): absent values.
- `Routes` (`routes.dfy`): the tables and the segment-anchored matcher.
- `Gate` (`gate.dfy`): session, authentication context, the decision cascade and its lemmas.
- `Matcher` (`matcher.dfy`): the middleware's path pattern.
- `Middleware` (`middleware.dfy`): the two composed.
- `Validation` (`validation.dfy`): the validators.

Three behaviours of the path pattern are easy to misread:

- The `api` alternative has no segment boundary, so `/apiary` bypasses the gate as well as `/api/…`.
- The `.` in `favicon.ico` is an unescaped wildcard, so `/faviconXico` bypasses the gate too.
- A path that ends in an image extension bypasses the gate even when it lies below a gated entry: `/books/cover.png` is never checked.

The gate is a pure function of its inputs, so identical inputs give identical decisions by construction.

## Model

| member | source | states |
|---|---|---|
| Routes.Matches | web/middleware.ts:48-50 | a path matches an entry when it equals the entry or starts with the entry followed by `/` |
| Routes.MatchesAny | web/middleware.ts:48-66 | `some` over a table holds iff some entry equals the path or is followed in it by `/` |
| Routes.SegmentBoundary | web/middleware.ts:48-50 | an entry followed by more text matches iff that text is empty or starts with `/` |
| Routes.NearMissIsNoMatch | web/middleware.ts:56-58 | `/books2` does not match `/books`; `/books/1` does |
| Routes.RootEntryMatches | web/middleware.ts:48-50 | the `/` entry matches only `/` itself and paths beginning `//` |
| Routes.MatchingEntriesNest | web/middleware.ts:48-66 | two entries matching one path are nested: the shorter matches the longer |
| Gate.ContextOf | web/middleware.ts:45-46 | logged in iff a session is present; the parent flag is true only for a present user whose flag is true, so it implies logged in |
| Gate.Decide | web/middleware.ts:69-106 | every request ends in one of: allow, redirect to the dashboard, redirect to unauthorized, or redirect to sign-in carrying the encoded path+query as callback |
| Gate.AuthRoutesArePublic | web/middleware.ts:6-23 | every path matching an auth route also matches a public route |
| Gate.PublicAndGatedEntriesDoNotNest | web/middleware.ts:6-41 | no public entry lies below or above a protected, parent-only or admin entry |
| Gate.PublicAndGatedAreDisjoint | web/middleware.ts:6-41 | no path is both public and gated |
| Gate.AuthRoutePrecedence | web/middleware.ts:69-75 | auth routes are public, yet a signed-in user is redirected to the dashboard and a signed-out one allowed |
| Gate.PublicRouteAllows | web/middleware.ts:78-80 | a public non-auth path is allowed for every context |
| Gate.AboutIsOpen | web/middleware.ts:78-80 | `/about` is allowed for every context |
| Gate.SignedOutGatedGoesToSignIn | web/middleware.ts:83-89 | a signed-out caller on any gated path is sent to sign in with the encoded path+query, whatever the parent flag |
| Gate.NonParentIsUnauthorized | web/middleware.ts:93-100 | a signed-in non-parent on a parent-only or admin path is sent to `/unauthorized` |
| Gate.SignedInReachesProtected | web/middleware.ts:92-102 | a signed-in caller is allowed on a path that is only protected |
| Gate.ParentReachesGated | web/middleware.ts:92-102 | a signed-in parent is allowed on every gated path |
| Gate.UnlistedIsOpen | web/middleware.ts:105-106 | a path in no table is allowed for every context |
| Gate.BooksNearMissIsOpen | web/middleware.ts:105-106 | `/books2` is in no table and is allowed for every context |
| Gate.DecisionOutcomes | web/middleware.ts:69-106 | each outcome holds iff its condition does, both directions: dashboard iff auth route and signed in; sign-in iff gated and signed out; unauthorized iff signed in, not parent, parent-only or admin; allow otherwise |
| Gate.DashboardOpenWhenSignedIn | web/middleware.ts:72 | the dashboard target is allowed to any signed-in caller |
| Gate.UnauthorizedPageOpen | web/middleware.ts:94 | the unauthorized target is allowed for every context, so refused callers are not redirected again |
| Gate.SignInOpenWhenSignedOut | web/middleware.ts:86-89 | the sign-in target is allowed to a signed-out caller |
| Gate.RedirectsSettle | web/middleware.ts:69-106 | following any redirect once in the same session is allowed: no redirect loops |
| Matcher.GateRuns | web/middleware.ts:120 | the pattern matches the whole path: a leading `/`, no line terminator after it, and none of the lookahead alternatives (`api`, `_next/static`, `_next/image`, `favicon` + any character + `ico`, text ending in `.` + an image extension) holds of the rest |
| Matcher.NextInternalsBypassGate | web/middleware.ts:120 | any path starting `/_next/static` or `/_next/image` bypasses the gate |
| Matcher.AssetPathsBypassGate | web/middleware.ts:120 | a path ending in `.svg`, `.png`, `.jpg`, `.jpeg`, `.gif` or `.webp` never reaches the gate |
| Matcher.ApiPrefixBypassesGate | web/middleware.ts:120 | any path starting `/api` bypasses the gate, with no segment boundary |
| Matcher.FaviconAlternativeIsAWildcard | web/middleware.ts:120 | `/favicon.ico` and `/faviconXico` both bypass the gate |
| Matcher.ProtectedAssetBypassesGate | web/middleware.ts:120 | `/books/cover.png` bypasses the gate although it lies below a protected entry |
| Matcher.PlainPathsRunGate | web/middleware.ts:120 | a `/`-led path without dot, underscore or line terminator, not starting `/api` or `/favicon`, runs the gate |
| Middleware.HandleRequest | web/middleware.ts:109-122 | a skipped request proceeds; a redirect only ever targets the dashboard, sign-in or unauthorized page |
| Middleware.AssetRequestsProceed | web/middleware.ts:109-122 | image requests proceed whatever the tables and session say |
| Middleware.PlainEntryRunsGate | web/middleware.ts:120 | an entry that is `/`, or has at least three characters, starts with `/`, has a second character other than `f`, does not start `/ap`, and has no dot, underscore or line terminator, runs the gate |
| Middleware.RouteEntriesRunGate | web/middleware.ts:111-121 | every entry of every route table (public, auth, protected, parent-only, admin) runs the gate |
| Middleware.NoSessionOnGatedPathSignsIn | web/middleware.ts:43-89 | without a session, every gated path that runs the gate redirects to sign in with the callback |
| Middleware.MissingParentFlagIsNotParent | web/middleware.ts:43-100 | a session with no user, or a user with no parent flag, is refused parent-only and admin paths |
| Strings.Trim | web/src/lib/validation.ts:69 | `trim` leaves the input minus white-space prefix and suffix, and the result neither starts nor ends with white space |
| Validation.IsValidEmail | web/src/lib/validation.ts:2-5 | the first `@` has text before it, no `@` follows it, a dot lies at least two positions after it and is not the last character, and there is no white space anywhere |
| Validation.IsValidEmailMatchesPattern | web/src/lib/validation.ts:2-5 | the e-mail check accepts exactly `L@D.T` with `L`, `D`, `T` non-empty and free of white space and `@` |
| Validation.ValidEmailHasShape | web/src/lib/validation.ts:2-5 | every accepted address decomposes as `L@D.T` |
| Validation.ShapedEmailIsValid | web/src/lib/validation.ts:2-5 | every `L@D.T` decomposition is accepted |
| Validation.ValidEmailHasOneAt | web/src/lib/validation.ts:2-5 | an accepted address has exactly one `@`, not at either end, and no white space |
| Validation.BrokenRules | web/src/lib/validation.ts:11-25 | a rule is kept iff it is in the list and the password breaks it; rules given in checking order stay in checking order |
| Validation.ValidatePassword | web/src/lib/validation.ts:8-31 | valid iff no errors iff length ≥ 8 with an ASCII lower, upper and digit; at most 4 errors; each rule's message present iff that rule fails; messages in order length, lowercase, uppercase, number |
| Validation.FirstPasswordError | web/src/lib/validation.ts:11-25 | the first error is the message of the first rule broken in checking order |
| Validation.CountMet | web/src/lib/validation.ts:40-46 | the one-point-per-criterion tally equals the number of distinct criteria met |
| Validation.Score | web/src/lib/validation.ts:40-46 | the score is the number of the five criteria met, hence at most 5 |
| Validation.NonEmptyPasswordScores | web/src/lib/validation.ts:40-50 | the score is 0 exactly for the empty password |
| Validation.GetPasswordStrength | web/src/lib/validation.ts:34-65 | score counts met criteria; level 0 for score 0, 1 for 1–2, then score−1; level 0 iff empty; label and colour per level |
| Validation.StrengthLevelMonotone | web/src/lib/validation.ts:48-64 | a higher score never gives a lower level |
| Validation.ValidPasswordIsAtLeastGood | web/src/lib/validation.ts:8-64 | a password passing the rules has strength level at least 3 |
| Validation.StrongPasswordIsValid | web/src/lib/validation.ts:8-64 | a level-4 password passes the rules |
| Validation.IsValidName | web/src/lib/validation.ts:68-70 | the name trimmed of white space at both ends has at least 2 characters |
| Validation.IsValidNameIff | web/src/lib/validation.ts:68-70 | a name is valid iff it holds two non-white-space characters, i.e. its trim has length ≥ 2 |
| Validation.ValidateRegistrationForm | web/src/lib/validation.ts:73-107 | valid iff no key set; each key set iff its field fails; password error is the first password message |
| Validation.RegistrationValidIff | web/src/lib/validation.ts:73-107 | valid iff name valid, e-mail has the pattern's shape, password meets the rules, passwords equal, terms accepted |
| Validation.RegistrationPasswordMessage | web/src/lib/validation.ts:90-93 | the password error names the first broken rule in the order length, lowercase, uppercase, number |
| Validation.ValidateLoginForm | web/src/lib/validation.ts:109-129 | empty e-mail gives "Email is required"; otherwise the e-mail error is set iff the format fails; password error iff password empty; valid iff no key set |
| Validation.LoginValidIff | web/src/lib/validation.ts:109-129 | valid iff the e-mail has the pattern's shape and the password is non-empty |

## Left out

- `encodeURIComponent` is a parameter `encode: string -> string`. The percent-encoding table is not modelled; lemmas hold for every encoder.
- The `auth(...)` wrapper, `NextResponse` and `URL` construction are not modelled. A redirect is `Redirect(pathname, search)` on the request's own origin, and `NextResponse.next()` is `Allow`.
- Session resolution is not modelled. The session is given as an optional value with an optional user and an optional parent flag. A non-boolean truthy `isParent` is not modelled, because the session type declares it boolean.
- `nextUrl.pathname` normalisation by the framework, such as base path and locale, is not modelled. The pathname is taken as given.
- `Matcher.GateRuns` reads the path pattern as an ECMAScript regular expression, matched case-sensitively against the whole pathname. The framework's own compilation of matcher strings is not modelled. That compilation adds trailing-slash and data-route handling.
- String lengths count characters, while JavaScript counts UTF-16 code units. The two differ only for characters outside the Basic Multilingual Plane.
- White space is an explicit list of code points, the one JavaScript's `\s` and `trim()` use. Unicode category lookups are not modelled.
- The React form components carry their own inline checks, which differ from these validators in messages and details (an untrimmed name length, an unanchored e-mail pattern, one combined password message); they are UI and are not modelled. Pages, the profile API handler and the database client are I/O and are not modelled either.
