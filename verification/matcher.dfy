/** The path pattern that decides whether the middleware runs at all, read as an
    ECMAScript regular expression that must match the whole pathname: a leading
    `/`, then a negative lookahead refusing `api`, `_next/static`, `_next/image`,
    `favicon` + any character + `ico`, and any text ending in a dot and one of
    six image extensions, then any text without line terminators. */
module Matcher {
  import opened Strings

  /** The file extensions whose paths bypass the middleware. */
  const AssetExtensions: seq<string> := ["svg", "png", "jpg", "jpeg", "gif", "webp"]

  predicate NoLineTerminator(s: string) {
    forall k :: 0 <= k < |s| ==> !IsLineTerminator(s[k])
  }

  /** The favicon alternative: `favicon`, any one character but a line terminator, `ico`. */
  predicate IsFaviconLike(rest: string) {
    && 11 <= |rest|
    && rest[..7] == "favicon"
    && !IsLineTerminator(rest[7])
    && rest[8..11] == "ico"
  }

  /** The asset alternative: some text without line terminators, a dot, an extension, the end. */
  predicate EndsWithAssetExtension(rest: string) {
    exists e :: e in AssetExtensions
              && EndsWith(rest, "." + e)
              && NoLineTerminator(rest[..|rest| - |e| - 1])
  }

  /** The negative lookahead, tried just after the leading `/`. */
  predicate LookaheadRejects(rest: string) {
    || StartsWith(rest, "api")
    || StartsWith(rest, "_next/static")
    || StartsWith(rest, "_next/image")
    || IsFaviconLike(rest)
    || EndsWithAssetExtension(rest)
  }

  /** The pattern matches the whole pathname: a leading `/`, the lookahead fails,
      and `.*` runs to the end without meeting a line terminator. */
  predicate GateRuns(path: string) {
    && 1 <= |path|
    && path[0] == '/'
    && NoLineTerminator(path[1..])
    && !LookaheadRejects(path[1..])
  }

  /** A path ending in one of the asset extensions never reaches the gate,
      whatever route table it lies in. */
  lemma {:induction false} AssetPathsBypassGate(path: string, e: string)
    requires e in AssetExtensions && EndsWith(path, "." + e)
    ensures !GateRuns(path)
  {
    if 1 <= |path| && path[0] == '/' && NoLineTerminator(path[1..]) {
      var rest := path[1..];
      var dot := |path| - |e| - 1;
      assert path[dot] == ("." + e)[0] == '.';
      assert 1 <= dot;
      assert rest[|rest| - |e| - 1..] == path[dot..] == "." + e;
      assert rest[..|rest| - |e| - 1] == path[1..dot];
      assert EndsWithAssetExtension(rest);
    }
  }

  /** The `api` alternative has no segment boundary: `/apiary` bypasses the gate too. */
  lemma {:induction false} ApiPrefixBypassesGate(path: string)
    requires StartsWith(path, "/api")
    ensures !GateRuns(path)
  {
    if 1 <= |path| {
      assert path[1..][..3] == path[..4][1..] == "api";
    }
  }

  /** The framework's own build output and image optimiser bypass the gate. */
  lemma {:induction false} NextInternalsBypassGate(path: string)
    requires StartsWith(path, "/_next/static") || StartsWith(path, "/_next/image")
    ensures !GateRuns(path)
  {
    if StartsWith(path, "/_next/static") {
      assert path[1..][..12] == path[..13][1..] == "_next/static";
    } else {
      assert path[1..][..11] == path[..12][1..] == "_next/image";
    }
  }

  /** The favicon alternative matches any character in place of its dot. */
  lemma FaviconAlternativeIsAWildcard()
    ensures !GateRuns("/favicon.ico")
    ensures !GateRuns("/faviconXico")
  {
    assert IsFaviconLike("favicon.ico");
    assert "/favicon.ico"[1..] == "favicon.ico";
    assert IsFaviconLike("faviconXico");
    assert "/faviconXico"[1..] == "faviconXico";
  }

  /** A path under a route entry can still bypass the gate by looking like an asset. */
  lemma ProtectedAssetBypassesGate()
    ensures !GateRuns("/books/cover.png")
  {
    assert "/books/cover.png" == "/books/cover" + ".png";
    AssetPathsBypassGate("/books/cover.png", "png");
  }

  /** A path with no dot, underscore or line terminator runs the gate unless it
      starts with `/api` or `/favicon`. */
  lemma {:induction false} PlainPathsRunGate(path: string)
    requires 1 <= |path| && path[0] == '/'
    requires forall k :: 1 <= k < |path| ==> IsPlainPathChar(path[k])
    requires !StartsWith(path, "/api") && !StartsWith(path, "/favicon")
    ensures GateRuns(path)
  {
    var rest := path[1..];
    assert forall k :: 0 <= k < |rest| ==> IsPlainPathChar(rest[k]);
    assert !StartsWith(rest, "api") by {
      if 3 <= |rest| {
        assert path[..4] == "/" + rest[..3];
      }
    }
    assert !IsFaviconLike(rest) by {
      if 7 <= |rest| {
        assert path[..8] == "/" + rest[..7];
      }
    }
    assert !StartsWith(rest, "_next/static") && !StartsWith(rest, "_next/image") by {
      if 1 <= |rest| {
        assert rest[0] != '_';
      }
    }
    PlainTextHasNoAssetExtension(rest);
    assert NoLineTerminator(rest);
    assert !LookaheadRejects(rest);
  }

  /** Text without a dot cannot end in a dot and an extension. */
  lemma {:induction false} PlainTextHasNoAssetExtension(rest: string)
    requires forall k :: 0 <= k < |rest| ==> IsPlainPathChar(rest[k])
    ensures !EndsWithAssetExtension(rest)
  {
    forall e | e in AssetExtensions && |e| + 1 <= |rest|
      ensures rest[|rest| - |e| - 1..] != "." + e
    {
      assert rest[|rest| - |e| - 1] != '.';
    }
  }

  predicate IsPlainPathChar(c: char) {
    c != '.' && c != '_' && !IsLineTerminator(c)
  }
}
