/** The routing half of the service worker: which requests it intercepts, the
    content type it infers from a pathname's extension, and the caching strategy
    that content type selects from `RESOURCE_STRATEGIES`. */
module ServiceWorker {
  import opened Text

  /** `CACHE_STRATEGIES`. */
  datatype Strategy = CacheFirst | NetworkFirst | StaleWhileRevalidate | NetworkOnly | CacheOnly

  /** `RESOURCE_STRATEGIES`, in declaration order (the order `Object.entries` yields). */
  const ResourceStrategies: seq<(string, Strategy)> := [
    ("text/html", NetworkFirst),
    ("text/css", StaleWhileRevalidate),
    ("application/javascript", StaleWhileRevalidate),
    ("image/", CacheFirst),
    ("font/", CacheFirst),
    ("application/json", NetworkFirst)
  ]

  /** `s.startsWith(p)`. */
  predicate StartsWith(s: string, p: string)
  {
    |p| <= |s| && s[..|p|] == p
  }

  // ---------------------------------------------------------------------
  // Interception
  // ---------------------------------------------------------------------

  /** The fetch listener calls `respondWith` only for GET requests over an
      http(s) scheme whose path is neither under `/api/` nor starts with `/ws`. */
  predicate Intercepts(verb: string, protocol: string, pathname: string)
  {
    if verb != "GET" then false
    else if !StartsWith(protocol, "http") then false
    else if StartsWith(pathname, "/api/") || StartsWith(pathname, "/ws") then false
    else true
  }

  /** Each early return of the listener is one conjunct: a request is intercepted
      exactly when it passes all three filters. */
  lemma InterceptsIffAllFiltersPass(verb: string, protocol: string, pathname: string)
    ensures Intercepts(verb, protocol, pathname)
        <==> verb == "GET" && StartsWith(protocol, "http")
             && !StartsWith(pathname, "/api/") && !StartsWith(pathname, "/ws")
  {
  }

  /** API and WebSocket traffic always goes straight to the network, whatever
      the method and scheme. */
  lemma ApiTrafficBypasses(verb: string, protocol: string, rest: string)
    ensures !Intercepts(verb, protocol, "/api/" + rest)
    ensures !Intercepts(verb, protocol, "/ws" + rest)
  {
    assert ("/api/" + rest)[..5] == "/api/";
    assert ("/ws" + rest)[..3] == "/ws";
  }

  // ---------------------------------------------------------------------
  // Content type
  // ---------------------------------------------------------------------

  /** `pathname.split('.').pop()`: the text after the last '.', or the whole
      pathname when it has none. */
  function LastSegment(pathname: string): string
    decreases |pathname|
  {
    if pathname == [] then []
    else if pathname[|pathname| - 1] == '.' then []
    else LastSegment(pathname[..|pathname| - 1]) + [pathname[|pathname| - 1]]
  }

  /** The last segment is a dot-free suffix of the pathname, and either the
      whole pathname or preceded by a '.'. */
  lemma {:induction false} LastSegmentIsLastPiece(pathname: string)
    ensures var r := LastSegment(pathname);
            && |r| <= |pathname| && pathname[|pathname| - |r|..] == r
            && '.' !in r
            && (|r| < |pathname| ==> pathname[|pathname| - |r| - 1] == '.')
    decreases |pathname|
  {
    if pathname != [] && pathname[|pathname| - 1] != '.' {
      var init := pathname[..|pathname| - 1];
      LastSegmentIsLastPiece(init);
      var r := LastSegment(pathname);
      assert r == LastSegment(init) + [pathname[|pathname| - 1]];
      assert pathname[|pathname| - |r|..] == init[|init| - |LastSegment(init)|..] + [pathname[|pathname| - 1]];
    }
  }

  /** A pathname without any '.' is its own last segment. */
  lemma NoDotWholePath(pathname: string)
    requires '.' !in pathname
    ensures LastSegment(pathname) == pathname
  {
    LastSegmentIsLastPiece(pathname);
  }

  /** The lower-cased extension `getContentType` switches on. */
  function Extension(pathname: string): string
  {
    Lower(LastSegment(pathname))
  }

  /** The `switch` of `getContentType`, on an already lower-cased extension. */
  function ContentTypeFor(extension: string): string
  {
    if extension == "html" then "text/html"
    else if extension == "css" then "text/css"
    else if extension == "js" || extension == "mjs" then "application/javascript"
    else if extension == "json" then "application/json"
    else if extension == "png" || extension == "jpg" || extension == "jpeg" || extension == "gif"
         || extension == "webp" || extension == "svg" then "image/"
    else if extension == "woff" || extension == "woff2" || extension == "ttf" || extension == "otf" then "font/"
    else "text/html"
  }

  /** `getContentType(pathname)`. */
  function GetContentType(pathname: string): string
  {
    ContentTypeFor(Extension(pathname))
  }

  // ---------------------------------------------------------------------
  // Strategy
  // ---------------------------------------------------------------------

  /** `getStrategy`'s loop over `table`: the strategy of the first entry whose
      key starts `contentType`, `NetworkFirst` when none does. */
  function FirstMatch(table: seq<(string, Strategy)>, contentType: string): Strategy
    decreases |table|
  {
    if table == [] then NetworkFirst
    else if StartsWith(contentType, table[0].0) then table[0].1
    else FirstMatch(table[1..], contentType)
  }

  /** The first matching entry decides, and only when no key matches does the
      fallback apply. */
  lemma {:induction false} FirstMatchIsFirst(table: seq<(string, Strategy)>, contentType: string)
    ensures var s := FirstMatch(table, contentType);
            || (exists i | 0 <= i < |table| ::
                  && StartsWith(contentType, table[i].0) && s == table[i].1
                  && forall j | 0 <= j < i :: !StartsWith(contentType, table[j].0))
            || (s == NetworkFirst && forall i | 0 <= i < |table| :: !StartsWith(contentType, table[i].0))
    decreases |table|
  {
    if table != [] && !StartsWith(contentType, table[0].0) {
      FirstMatchIsFirst(table[1..], contentType);
      assert forall i | 1 <= i < |table| :: table[i] == table[1..][i - 1];
      var s := FirstMatch(table, contentType);
      if exists i | 0 <= i < |table| - 1 ::
           && StartsWith(contentType, table[1..][i].0) && s == table[1..][i].1
           && forall j | 0 <= j < i :: !StartsWith(contentType, table[1..][j].0) {
        var i :| 0 <= i < |table| - 1
           && StartsWith(contentType, table[1..][i].0) && s == table[1..][i].1
           && forall j | 0 <= j < i :: !StartsWith(contentType, table[1..][j].0);
        assert forall j | 0 <= j < i + 1 :: !StartsWith(contentType, table[j].0);
      }
    } else if table != [] {
      assert StartsWith(contentType, table[0].0);
    }
  }

  /** `getStrategy(contentType)`. */
  function GetStrategy(contentType: string): Strategy
  {
    FirstMatch(ResourceStrategies, contentType)
  }

  /** The strategy `handleRequest` applies to a pathname. */
  function RouteOf(pathname: string): Strategy
  {
    GetStrategy(GetContentType(pathname))
  }

  /** No entry of the table names `NetworkOnly` or `CacheOnly`, so no content
      type, inferred or not, selects them. */
  lemma NeverNetworkOnlyOrCacheOnly(contentType: string)
    ensures GetStrategy(contentType) != NetworkOnly && GetStrategy(contentType) != CacheOnly
  {
    FirstMatchIsFirst(ResourceStrategies, contentType);
    assert forall i | 0 <= i < |ResourceStrategies| ::
      ResourceStrategies[i].1 != NetworkOnly && ResourceStrategies[i].1 != CacheOnly;
  }

  /** `p` is not a prefix of `s` when they differ at some index both have. */
  lemma DiffersAt(s: string, p: string, k: nat)
    requires k < |s| && k < |p| && s[k] != p[k]
    ensures !StartsWith(s, p)
  {
    if |p| <= |s| {
      assert s[..|p|][k] == s[k];
    }
  }

  /** The strategy selected by each content type `getContentType` can produce. */
  lemma StrategyOfEachContentType()
    ensures GetStrategy("text/html") == NetworkFirst
    ensures GetStrategy("text/css") == StaleWhileRevalidate
    ensures GetStrategy("application/javascript") == StaleWhileRevalidate
    ensures GetStrategy("image/") == CacheFirst
    ensures GetStrategy("font/") == CacheFirst
    ensures GetStrategy("application/json") == NetworkFirst
  {
    var t := ResourceStrategies;
    assert "text/html"[..9] == "text/html";
    assert "text/css"[..8] == "text/css";
    assert "application/javascript"[..22] == "application/javascript";
    assert "image/"[..6] == "image/";
    assert "font/"[..5] == "font/";
    assert "application/json"[..16] == "application/json";
    DiffersAt("application/javascript", t[0].0, 0);
    DiffersAt("application/javascript", t[1].0, 0);
    DiffersAt("image/", t[2].0, 0);
    DiffersAt("font/", t[2].0, 0);
    DiffersAt("application/json", t[0].0, 0);
    DiffersAt("application/json", t[1].0, 0);
    DiffersAt("application/json", t[3].0, 0);
    DiffersAt("application/json", t[4].0, 0);
    assert FirstMatch(t[5..], "application/json") == NetworkFirst;
  }

  /** The strategy each extension should get, read off the switch and the table
      together: pages and JSON network-first, styles and scripts
      stale-while-revalidate, images and fonts cache-first, anything else as a page. */
  function ExpectedStrategy(extension: string): Strategy
  {
    if extension == "css" || extension == "js" || extension == "mjs" then StaleWhileRevalidate
    else if extension == "png" || extension == "jpg" || extension == "jpeg" || extension == "gif"
         || extension == "webp" || extension == "svg" then CacheFirst
    else if extension == "woff" || extension == "woff2" || extension == "ttf" || extension == "otf" then CacheFirst
    else NetworkFirst
  }

  /** Routing by extension: the content type an extension maps to selects the
      strategy the extension calls for. */
  lemma RoutesByExtension(extension: string)
    ensures GetStrategy(ContentTypeFor(extension)) == ExpectedStrategy(extension)
  {
    StrategyOfEachContentType();
  }

  /** The strategy `handleRequest` applies to a pathname is the one its
      lower-cased extension calls for. */
  lemma RoutesByPathname(pathname: string)
    ensures RouteOf(pathname) == ExpectedStrategy(Extension(pathname))
  {
    RoutesByExtension(Extension(pathname));
  }

  /** The extension of a pathname without any '.' is the whole pathname, lower-cased,
      so such a navigation is routed as a page unless the whole path spells a known extension. */
  lemma DotlessPathIsWholeExtension(pathname: string)
    requires '.' !in pathname
    ensures Extension(pathname) == Lower(pathname)
  {
    NoDotWholePath(pathname);
  }

  // ---------------------------------------------------------------------
  // Case-insensitivity
  // ---------------------------------------------------------------------

  /** Appending one character to a pathname either ends the last segment
      (a '.') or extends it. */
  lemma LastSegmentSnoc(init: string, c: char)
    ensures LastSegment(init + [c]) == if c == '.' then [] else LastSegment(init) + [c]
  {
    assert (init + [c])[..|init|] == init;
  }

  lemma LowerSnoc(init: string, c: char)
    ensures Lower(init + [c]) == Lower(init) + [LowerChar(c)]
  {
    LowerAppend(init, [c]);
  }

  /** Lower-casing leaves '.' alone, so it commutes with taking the last segment. */
  lemma {:induction false} LastSegmentOfLower(pathname: string)
    ensures LastSegment(Lower(pathname)) == Lower(LastSegment(pathname))
    decreases |pathname|
  {
    if pathname != [] {
      var init := pathname[..|pathname| - 1];
      var last := pathname[|pathname| - 1];
      assert pathname == init + [last];
      LowerSnoc(init, last);
      LastSegmentSnoc(Lower(init), LowerChar(last));
      LastSegmentSnoc(init, last);
      if last != '.' {
        LastSegmentOfLower(init);
        LowerSnoc(LastSegment(init), last);
      }
    }
  }

  /** Extension matching ignores case: pathnames that agree once lower-cased
      (`A.PNG` and `a.png`) get the same content type and the same strategy. */
  lemma ContentTypeIgnoresCase(p: string, q: string)
    requires Lower(p) == Lower(q)
    ensures GetContentType(p) == GetContentType(q)
    ensures RouteOf(p) == RouteOf(q)
  {
    LastSegmentOfLower(p);
    LastSegmentOfLower(q);
  }
}
