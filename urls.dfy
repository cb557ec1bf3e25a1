/**
 * The part of the WHATWG URL parser the storefront relies on: absolute `http`/`https`
 * URLs split into scheme, host, path and query, their origin, the first value of a
 * query parameter, and the "store id" path shape the checkout proxy recognises.
 * Anything that is not an `http(s)://` URL with a non-empty host is a parse failure
 * (`new URL(...)` throwing).
 */
module Urls {
  import opened Wrappers
  import opened Text
  import opened Percent

  /** `/^https?:\/\//i` */
  predicate HasHttpScheme(s: string) {
    (|s| >= 7 && Lower(s[..7]) == "http://") || (|s| >= 8 && Lower(s[..8]) == "https://")
  }

  /** `s` ends with `suffix`, ignoring ASCII case (a regular expression `suffix$` with the `i` flag). */
  predicate EndsWithCI(s: string, suffix: string) {
    |suffix| <= |s| && Lower(s[|s| - |suffix|..]) == Lower(suffix)
  }

  datatype Url = Url(scheme: string, host: string, path: string, query: string)

  /** `url.origin` */
  function Origin(u: Url): string { u.scheme + "://" + u.host }

  /** `url.toString()` without a fragment; an empty query prints no `?`. */
  function Serialize(u: Url): string {
    Origin(u) + u.path + (if u.query == "" then "" else "?" + u.query)
  }

  /** The index of the first character of `s` that is in `stops`, or `|s|` if there is none. */
  function IndexOfAny(s: string, stops: set<char>): (i: nat)
    ensures i <= |s|
    ensures i < |s| ==> s[i] in stops
    ensures forall k :: 0 <= k < i ==> s[k] !in stops
  {
    if s == [] || s[0] in stops then 0 else 1 + IndexOfAny(s[1..], stops)
  }

  /** The first `stops` character of `a + b` is the first one of `b` when `a` has none. */
  lemma IndexOfAnyAfter(a: string, b: string, stops: set<char>)
    requires forall k :: 0 <= k < |a| ==> a[k] !in stops
    requires b != [] && b[0] in stops
    ensures IndexOfAny(a + b, stops) == |a|
  {
    assert (a + b)[|a|] == b[0];
    assert forall k :: 0 <= k < |a| ==> (a + b)[k] == a[k];
  }

  /** `a + b` has no `stops` character when neither part has one. */
  lemma IndexOfAnyNone(s: string, stops: set<char>)
    requires forall k :: 0 <= k < |s| ==> s[k] !in stops
    ensures IndexOfAny(s, stops) == |s|
  {
  }

  /** The length of the scheme name of a string that starts with `http://` or `https://`. */
  function SchemeLength(s: string): (n: nat)
    requires HasHttpScheme(s)
    ensures n in {4, 5} && n + 3 <= |s|
  {
    if |s| >= 7 && Lower(s[..7]) == "http://" then 4 else 5
  }

  /**
   * `new URL(s)` for absolute `http(s)` URLs: the scheme and host are lower-cased, an
   * empty path becomes "/", the query is what follows `?` up to `#`, the fragment is dropped.
   */
  function Parse(s: string): (r: Option<Url>)
    ensures r.Some? ==> HasHttpScheme(s)
    ensures r.Some? ==> r.value.scheme in {"http", "https"} && r.value.host != ""
    ensures r.Some? ==> |r.value.path| > 0 && r.value.path[0] == '/'
  {
    if !HasHttpScheme(s) then None
    else
      var n := SchemeLength(s);
      ParseAfterScheme(if n == 4 then "http" else "https", s[n + 3..])
  }

  /** What follows `scheme://`: a non-empty host up to `/`, `?` or `#`, then path and query. */
  function ParseAfterScheme(scheme: string, rest: string): (r: Option<Url>)
    ensures r.Some? ==> r.value.scheme == scheme && r.value.host != ""
    ensures r.Some? ==> |r.value.path| > 0 && r.value.path[0] == '/'
  {
    var hostEnd := IndexOfAny(rest, {'/', '?', '#'});
    if hostEnd == 0 then None
    else
      var pq := PathAndQuery(rest[hostEnd..]);
      Some(Url(scheme, Lower(rest[..hostEnd]), pq.0, pq.1))
  }

  /** Splits what follows the host into the path ("/" when empty) and the query. */
  function PathAndQuery(afterHost: string): (r: (string, string))
    requires afterHost == [] || afterHost[0] in {'/', '?', '#'}
    ensures |r.0| > 0 && r.0[0] == '/'
  {
    var pathEnd := IndexOfAny(afterHost, {'?', '#'});
    var path := if pathEnd == 0 then "/" else afterHost[..pathEnd];
    var afterPath := afterHost[pathEnd..];
    var query :=
      if afterPath != [] && afterPath[0] == '?' then
        afterPath[1..][..IndexOfAny(afterPath[1..], {'#'})]
      else "";
    (path, query)
  }

  /** A URL in the form `new URL` produces, with no character that would split differently. */
  predicate Canonical(u: Url) {
    && u.scheme in {"http", "https"}
    && u.host != [] && Lower(u.host) == u.host
    && (forall k :: 0 <= k < |u.host| ==> u.host[k] !in {'/', '?', '#'})
    && u.path != [] && u.path[0] == '/'
    && (forall k :: 0 <= k < |u.path| ==> u.path[k] !in {'?', '#'})
    && (forall k :: 0 <= k < |u.query| ==> u.query[k] != '#')
  }

  /** Parsing a printed canonical URL gives it back. */
  lemma ParseSerialize(u: Url)
    requires Canonical(u)
    ensures Parse(Serialize(u)) == Some(u)
  {
    var tail := if u.query == "" then "" else "?" + u.query;
    ParseSerializedScheme(u, tail);
    ParseAfterSchemeOf(u, tail);
  }

  lemma ParseSerializedScheme(u: Url, tail: string)
    requires u.scheme in {"http", "https"}
    requires tail == if u.query == "" then "" else "?" + u.query
    ensures Parse(Serialize(u)) == ParseAfterScheme(u.scheme, u.host + u.path + tail)
  {
    var rest := u.host + u.path + tail;
    SerializeSplit(u, tail);
    if u.scheme == "http" {
      assert u.scheme + "://" == "http://";
      ParseHttp(rest);
    } else {
      assert u.scheme + "://" == "https://";
      ParseHttps(rest);
    }
  }

  lemma SerializeSplit(u: Url, tail: string)
    requires tail == if u.query == "" then "" else "?" + u.query
    ensures Serialize(u) == (u.scheme + "://") + (u.host + u.path + tail)
  {
    var a := u.scheme + "://";
    assert Origin(u) == a + u.host;
    assert (a + u.host) + u.path + tail == a + (u.host + u.path + tail);
  }

  lemma ParseHttp(rest: string)
    ensures Parse("http://" + rest) == ParseAfterScheme("http", rest)
  {
    var s := "http://" + rest;
    assert s[..7] == "http://";
    LowerOfLowercase("http://");
    assert SchemeLength(s) == 4;
    assert s[7..] == rest;
  }

  lemma ParseHttps(rest: string)
    ensures Parse("https://" + rest) == ParseAfterScheme("https", rest)
  {
    var s := "https://" + rest;
    assert s[..8] == "https://";
    assert s[..7] == "https:/";
    LowerOfLowercase("https://");
    LowerOfLowercase("https:/");
    assert SchemeLength(s) == 5;
    assert s[8..] == rest;
  }

  lemma ParseAfterSchemeOf(u: Url, tail: string)
    requires Canonical(u)
    requires tail == if u.query == "" then "" else "?" + u.query
    ensures ParseAfterScheme(u.scheme, u.host + u.path + tail) == Some(u)
  {
    var rest := u.host + u.path + tail;
    IndexOfAnyAfter(u.host, u.path + tail, {'/', '?', '#'});
    assert rest == u.host + (u.path + tail);
    assert rest[..|u.host|] == u.host;
    assert rest[|u.host|..] == u.path + tail;
    PathAndQueryOf(u.path, u.query, tail);
  }

  lemma PathAndQueryOf(path: string, query: string, tail: string)
    requires path != [] && path[0] == '/'
    requires forall k :: 0 <= k < |path| ==> path[k] !in {'?', '#'}
    requires forall k :: 0 <= k < |query| ==> query[k] != '#'
    requires tail == if query == "" then "" else "?" + query
    ensures PathAndQuery(path + tail) == (path, query)
  {
    var afterHost := path + tail;
    if query == "" {
      assert afterHost == path;
      IndexOfAnyNone(path, {'?', '#'});
      assert afterHost[|path|..] == [];
    } else {
      IndexOfAnyAfter(path, tail, {'?', '#'});
      assert afterHost[..|path|] == path;
      assert afterHost[|path|..] == tail;
      assert tail[1..] == query;
      IndexOfAnyNone(query, {'#'});
      assert query[..|query|] == query;
    }
  }

  /**
   * The request-URL fallback shared by the reviews and search proxies: a URL that does
   * not parse is taken as a path on `http://localhost:<PORT or 3000>`.
   */
  function ResolveRequestUrl(url: string, port: Option<string>): (r: string)
    ensures Parse(url).Some? ==> r == url
    ensures Parse(url).None? ==> StartsWith(r, "http://localhost:") && EndsWith(r, url)
    ensures Parse(r).Some?
  {
    if Parse(url).Some? then url
    else
      var p := if port.Some? && port.value != "" then port.value else "3000";
      LocalhostParses(p + url);
      LocalhostShape(p, url);
      "http://localhost:" + (p + url)
  }

  lemma LocalhostShape(p: string, url: string)
    ensures StartsWith("http://localhost:" + (p + url), "http://localhost:")
    ensures EndsWith("http://localhost:" + (p + url), url)
  {
    var r := "http://localhost:" + (p + url);
    assert r[..17] == "http://localhost:";
    assert r == ("http://localhost:" + p) + url;
    assert r[|r| - |url|..] == url;
  }

  lemma LocalhostParses(tail: string)
    ensures Parse("http://localhost:" + tail).Some?
  {
    var s := "http://localhost:" + tail;
    assert s[..7] == "http://";
    LowerOfLowercase("http://");
    var rest := s[7..];
    assert rest == "localhost:" + tail;
    assert rest[0] == 'l';
  }

  // ------------------------------------------------------------- query string

  /** `s.split(sep)` */
  function Split(s: string, sep: char): (parts: seq<string>)
    ensures |parts| >= 1
    ensures forall i :: 0 <= i < |parts| ==> sep !in parts[i]
  {
    var i := IndexOfAny(s, {sep});
    if i == |s| then
      assert forall k :: 0 <= k < |s| ==> s[k] != sep;
      [s]
    else
      assert forall k :: 0 <= k < i ==> s[..i][k] != sep;
      [s[..i]] + Split(s[i + 1..], sep)
  }

  /** `parts.join(sep)` */
  function Join(parts: seq<string>, sep: char): string
    requires |parts| >= 1
  {
    if |parts| == 1 then parts[0] else parts[0] + [sep] + Join(parts[1..], sep)
  }

  /** Splitting and joining again gives the original string back. */
  lemma {:induction false} JoinSplit(s: string, sep: char)
    ensures Join(Split(s, sep), sep) == s
    decreases |s|
  {
    var i := IndexOfAny(s, {sep});
    if i < |s| {
      var rest := Split(s[i + 1..], sep);
      assert Split(s, sep) == [s[..i]] + rest;
      assert Join(Split(s, sep), sep) == s[..i] + [sep] + Join(rest, sep);
      JoinSplit(s[i + 1..], sep);
      assert s == s[..i] + [sep] + s[i + 1..];
    }
  }

  /** Splitting at the first separator: the part before it, then the split of the rest. */
  lemma SplitCons(a: string, rest: string, sep: char)
    requires sep !in a
    ensures Split(a + [sep] + rest, sep) == [a] + Split(rest, sep)
  {
    var s := a + [sep] + rest;
    IndexOfAnyAfter(a, [sep] + rest, {sep});
    assert s == a + ([sep] + rest);
    assert s[..|a|] == a;
    assert s[|a| + 1..] == rest;
  }

  /** A string without the separator is its own only part. */
  lemma SplitNone(s: string, sep: char)
    requires sep !in s
    ensures Split(s, sep) == [s]
  {
    IndexOfAnyNone(s, {sep});
  }

  /** The name and the value of a pair written as `key=value`. */
  lemma PairOf(key: string, value: string)
    requires '=' !in key
    ensures PairName(key + "=" + value) == key
    ensures PairValue(key + "=" + value) == value
  {
    var p := key + "=" + value;
    IndexOfAnyAfter(key, "=" + value, {'='});
    assert p == key + ("=" + value);
    assert p[..|key|] == key;
    assert p[|key| + 1..] == value;
  }

  /**
   * `new URLSearchParams(query).get(key)`: the value of the first pair whose decoded
   * name is `key`, decoded.
   */
  function QueryGet(query: string, key: string): Option<string> {
    FirstValue(Split(query, '&'), key)
  }

  function FirstValue(pairs: seq<string>, key: string): (r: Option<string>)
    ensures r.Some? ==>
      exists i :: 0 <= i < |pairs| && FormDecode(PairName(pairs[i])) == key && r.value == FormDecode(PairValue(pairs[i]))
    ensures r.None? ==> forall i :: 0 <= i < |pairs| ==> FormDecode(PairName(pairs[i])) != key
  {
    if pairs == [] then None
    else if FormDecode(PairName(pairs[0])) == key then Some(FormDecode(PairValue(pairs[0])))
    else
      var r := FirstValue(pairs[1..], key);
      assert forall i :: 1 <= i < |pairs| ==> pairs[i] == pairs[1..][i - 1];
      r
  }

  /** The name of a `name=value` pair: everything before the first `=`. */
  function PairName(pair: string): string {
    pair[..IndexOfAny(pair, {'='})]
  }

  /** The value of a `name=value` pair: everything after the first `=` ("" when there is none). */
  function PairValue(pair: string): string {
    var i := IndexOfAny(pair, {'='});
    if i == |pair| then "" else pair[i + 1..]
  }

  /** A query made of a single pair gives that pair's value back, decoded. */
  lemma QueryGetSingle(key: string, value: string)
    requires '&' !in key && '=' !in key && '+' !in key && '%' !in key && '&' !in value
    ensures QueryGet(key + "=" + value, key) == Some(FormDecode(value))
  {
    var q := key + "=" + value;
    SplitSinglePair(key, value);
    PairOf(key, value);
    FormDecodeOfPlain(key);
    FirstValueSingle(q, key);
  }

  lemma SplitSinglePair(key: string, value: string)
    requires '&' !in key && '&' !in value
    ensures Split(key + "=" + value, '&') == [key + "=" + value]
  {
    var q := key + "=" + value;
    assert forall k :: 0 <= k < |q| ==> q[k] == '=' || q[k] in key || q[k] in value;
    SplitNone(q, '&');
  }

  lemma FirstValueSingle(p: string, key: string)
    requires FormDecode(PairName(p)) == key
    ensures FirstValue([p], key) == Some(FormDecode(PairValue(p)))
  {
  }

  // ------------------------------------------------------------- store ids

  /** A character of `[A-Za-z0-9_-]`. */
  predicate IdChar(c: char) {
    ('A' <= c <= 'Z') || ('a' <= c <= 'z') || ('0' <= c <= '9') || c == '_' || c == '-'
  }

  predicate AllIdChars(s: string) { forall i :: 0 <= i < |s| ==> IdChar(s[i]) }

  /** `/api/` (any case) starts at `k` and at least six id characters run from there to the end. */
  predicate StoreIdAt(s: string, k: nat) {
    k + 5 <= |s| && Lower(s[k..k + 5]) == "/api/" && |s| - (k + 5) >= 6 && AllIdChars(s[k + 5..])
  }

  /**
   * `/\/api\/(?:[0-9a-fA-F-]{8,}|[A-Za-z0-9_-]{6,})$/i` as written: the first alternative's
   * characters are all among the second's and eight is at least six, so the second decides.
   */
  predicate StoreIdLikeSpec(s: string) {
    exists k: nat :: k <= |s| && StoreIdAt(s, k)
  }

  /** The longest run of id characters at the end of `s`. */
  function IdSuffix(s: string): (t: string)
    ensures |t| <= |s| && t == s[|s| - |t|..] && AllIdChars(t)
    ensures |t| < |s| ==> !IdChar(s[|s| - |t| - 1])
  {
    if s == [] || !IdChar(s[|s| - 1]) then []
    else
      var t := IdSuffix(s[..|s| - 1]);
      assert s[..|s| - 1][|s| - 1 - |t|..] == s[|s| - 1 - |t|..|s| - 1];
      t + [s[|s| - 1]]
  }

  /** The store-id test, read off the trailing run of id characters. */
  predicate StoreIdLike(s: string) {
    var t := IdSuffix(s);
    |t| >= 6 && EndsWithCI(s[..|s| - |t|], "/api/")
  }

  /** The computed test agrees with the pattern in both directions. */
  lemma StoreIdLikeCorrect(s: string)
    ensures StoreIdLike(s) <==> StoreIdLikeSpec(s)
  {
    if StoreIdLike(s) {
      StoreIdLikeSound(s);
    }
    if StoreIdLikeSpec(s) {
      var k: nat :| k <= |s| && StoreIdAt(s, k);
      StoreIdLikeComplete(s, k);
    }
  }

  lemma StoreIdLikeSound(s: string)
    requires StoreIdLike(s)
    ensures StoreIdAt(s, |s| - |IdSuffix(s)| - 5)
  {
    var t := IdSuffix(s);
    var k := |s| - |t| - 5;
    assert s[..|s| - |t|][|s| - |t| - 5..] == s[k..k + 5];
    assert s[k + 5..] == t;
  }

  lemma StoreIdLikeComplete(s: string, k: nat)
    requires k <= |s| && StoreIdAt(s, k)
    ensures StoreIdLike(s)
  {
    assert s[k + 4] == Lower(s[k..k + 5])[4] == '/';
    assert forall j :: k + 5 <= j < |s| ==> s[j] == s[k + 5..][j - (k + 5)];
    IdSuffixLength(s, k + 5);
    var t := IdSuffix(s);
    assert s[..|s| - |t|][|s| - |t| - 5..] == s[k..k + 5];
  }

  /** The trailing run of id characters stops just after the last character that is not one. */
  lemma {:induction false} IdSuffixLength(s: string, m: nat)
    requires 0 < m <= |s| && !IdChar(s[m - 1])
    requires forall j :: m <= j < |s| ==> IdChar(s[j])
    ensures |IdSuffix(s)| == |s| - m
    decreases |s|
  {
    if m < |s| {
      var init := s[..|s| - 1];
      assert init[m - 1] == s[m - 1];
      assert forall j :: m <= j < |init| ==> init[j] == s[j];
      IdSuffixLength(init, m);
    }
  }
}
