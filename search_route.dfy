/**
 * The search proxy (src/app/api/search/route.ts): `/api/search?q=...` asks the public
 * API's product list for the query and hands its JSON back. The public API's answer is
 * supplied by the caller as a `Reply`.
 */
module SearchRoute {
  import opened Wrappers
  import opened Text
  import opened Json
  import opened Urls
  import opened Percent
  import opened Http

  /** The public API's product list, relative to its base address. */
  const ProductsPath := "/products"

  /** `searchParams.get("q") || ""` on the request URL, after the localhost fallback. */
  function QueryOf(requestUrl: string, port: Option<string>): (q: string)
    ensures var got := QueryGet(Parse(ResolveRequestUrl(requestUrl, port)).value.query, "q");
      && (got.Some? ==> q == got.value)
      && (got.None? ==> q == "")
  {
    var got := QueryGet(Parse(ResolveRequestUrl(requestUrl, port)).value.query, "q");
    if got.Some? then got.value else ""
  }

  /**
   * The product-list address asked for a query: the base less one trailing slash, then
   * `/products`, then the search suffix.
   */
  function UpstreamUrl(base: string, q: string): (r: string)
    ensures StartsWith(r, DropTrailingSlash(base) + ProductsPath)
    ensures r[|DropTrailingSlash(base) + ProductsPath|..] == SearchSuffix(q)
  {
    var prefix := DropTrailingSlash(base) + ProductsPath;
    var r := prefix + SearchSuffix(q);
    assert r[..|prefix|] == prefix;
    assert r[|prefix|..] == SearchSuffix(q);
    r
  }

  /** `q ? "?search=" + encodeURIComponent(q) : ""` */
  function SearchSuffix(q: string): (r: string)
    ensures r == "" <==> q == ""
    ensures q != "" ==> r[0] == '?' && r[1..] == "search=" + EncodeURIComponent(q)
  {
    if q == "" then ""
    else
      var e := EncodeURIComponent(q);
      var r := "?" + ("search=" + e);
      assert r[1..] == "search=" + e;
      r
  }

  /**
   * The encoded query cannot break out of its parameter: the public API reads the
   * `search` parameter back as exactly the query.
   */
  lemma SearchParamReadsBack(q: string)
    requires q != ""
    ensures QueryGet(SearchSuffix(q)[1..], "search") == Some(q)
  {
    EncodeNoSeparators(q);
    SearchParamOf(SearchSuffix(q)[1..], EncodeURIComponent(q));
    FormDecodeOfEncodeURIComponent(q);
  }

  lemma SearchParamOf(t: string, e: string)
    requires t == "search=" + e && '&' !in e && '=' !in e
    ensures QueryGet(t, "search") == Some(FormDecode(e))
  {
    var name := "search";
    SearchNamePlain(name, e);
    QueryGetSingle(name, e);
  }

  lemma SearchNamePlain(name: string, e: string)
    requires name == "search"
    ensures '&' !in name && '=' !in name && '+' !in name && '%' !in name
    ensures "search=" + e == name + "=" + e
  {
  }

  /** A base written with or without its trailing slash asks the same address. */
  lemma UpstreamIgnoresTrailingSlash(base: string, q: string)
    requires !EndsWith(base, "/")
    ensures UpstreamUrl(base + "/", q) == UpstreamUrl(base, q)
  {
    var s := base + "/";
    assert s[|s| - 1..] == "/";
    assert s[..|s| - 1] == base;
  }

  /** What the handler answered, and the address it asked, if any. */
  datatype Outcome = Outcome(response: Response, sent: Option<string>)

  /**
   * `GET /api/search`: without a configured public API, 500; otherwise the product list
   * is asked for the query. A JSON answer is relayed with 200 when the public API
   * succeeded and 502 when it did not; a failed fetch answers 500 with the error's text
   * ("unknown" when that is empty), and an answer that is not JSON makes reading it
   * throw, which also answers 500.
   */
  function Get(requestUrl: string, port: Option<string>, baseEnv: Option<string>,
               upstream: string -> Reply): (o: Outcome)
    ensures o.sent.Some? <==> baseEnv.Some? && baseEnv.value != ""
    ensures o.sent.None? ==> o.response == ErrorResponse(500, "PUBLIC_API_URL not configured")
    ensures o.sent.Some? ==> o.sent.value == UpstreamUrl(baseEnv.value, QueryOf(requestUrl, port))
    ensures o.response.status in {200, 500, 502}
    ensures o.response.status == 200 <==>
      o.sent.Some? && upstream(o.sent.value).Answer? && upstream(o.sent.value).json.Some?
      && Ok(upstream(o.sent.value).status)
    ensures o.sent.Some? && upstream(o.sent.value).Answer? && upstream(o.sent.value).json.Some? ==>
      o.response.body == JsonBody(upstream(o.sent.value).json.value)
    ensures (o.sent.Some? && upstream(o.sent.value).Answer? && upstream(o.sent.value).json.Some?
             && !Ok(upstream(o.sent.value).status)) ==> o.response.status == 502
    ensures o.sent.Some? && upstream(o.sent.value).Answer? && upstream(o.sent.value).json.None? ==>
      o.response == Response(500, ExceptionBody)
    ensures o.sent.Some? && upstream(o.sent.value).Thrown? ==>
      o.response == ErrorResponse(500, if upstream(o.sent.value).error == "" then "unknown" else upstream(o.sent.value).error)
  {
    var q := QueryOf(requestUrl, port);
    if baseEnv.None? || baseEnv.value == "" then
      Outcome(ErrorResponse(500, "PUBLIC_API_URL not configured"), None)
    else
      var url := UpstreamUrl(baseEnv.value, q);
      var response :=
        match upstream(url)
        case Thrown(e) => ErrorResponse(500, if e == "" then "unknown" else e)
        case Answer(status, _, json) =>
          if json.None? then Response(500, ExceptionBody)
          else Response(if Ok(status) then 200 else 502, JsonBody(json.value));
      Outcome(response, Some(url))
  }

  /**
   * A request whose query is `q=` followed by the encoded query asks the public API for
   * exactly that query: the handler decodes what the browser encoded, and the product
   * list is asked with the query encoded once. (The route is mounted at `/api/search`;
   * the handler itself never reads the path.)
   */
  lemma GetForwardsQuery(scheme: string, host: string, path: string, q: string, port: Option<string>,
                         base: string, upstream: string -> Reply)
    requires Canonical(Url(scheme, host, path, ""))
    requires base != ""
    ensures Get(Serialize(Url(scheme, host, path, "q=" + EncodeURIComponent(q))), port, Some(base), upstream).sent
      == Some(UpstreamUrl(base, q))
  {
    QueryOfEncoded(scheme, host, path, q, port);
  }

  /** The handler reads back, decoded, exactly the query the browser encoded into the address. */
  lemma QueryOfEncoded(scheme: string, host: string, path: string, q: string, port: Option<string>)
    requires Canonical(Url(scheme, host, path, ""))
    ensures QueryOf(Serialize(Url(scheme, host, path, "q=" + EncodeURIComponent(q))), port) == q
  {
    var u := Url(scheme, host, path, "q=" + EncodeURIComponent(q));
    CanonicalWithEncodedQuery(scheme, host, path, q);
    ParseSerialize(u);
    QueryParamReadsBack(q);
  }

  lemma CanonicalWithEncodedQuery(scheme: string, host: string, path: string, q: string)
    requires Canonical(Url(scheme, host, path, ""))
    ensures Canonical(Url(scheme, host, path, "q=" + EncodeURIComponent(q)))
  {
    var e := EncodeURIComponent(q);
    var query := "q=" + e;
    EncodeNoSeparators(q);
    forall k | 0 <= k < |query| ensures query[k] != '#' {
      if k >= 2 {
        assert query[k] == e[k - 2];
      }
    }
  }

  /** The browser's encoded `q` pair is read back as the query itself. */
  lemma QueryParamReadsBack(q: string)
    ensures QueryGet("q=" + EncodeURIComponent(q), "q") == Some(q)
  {
    var e := EncodeURIComponent(q);
    var name := "q";
    QueryNamePlain(name, e);
    EncodedParamReadsBack(name, q);
  }

  lemma QueryNamePlain(name: string, e: string)
    requires name == "q"
    ensures '&' !in name && '=' !in name && '+' !in name && '%' !in name
    ensures "q=" + e == name + "=" + e
  {
  }

  /** A pair whose value went through `encodeURIComponent` is read back as that value. */
  lemma EncodedParamReadsBack(name: string, value: string)
    requires '&' !in name && '=' !in name && '+' !in name && '%' !in name
    ensures QueryGet(name + "=" + EncodeURIComponent(value), name) == Some(value)
  {
    EncodeNoSeparators(value);
    QueryGetSingle(name, EncodeURIComponent(value));
    FormDecodeOfEncodeURIComponent(value);
  }

  /** A request without `q` asks for the whole product list. */
  lemma MissingQueryListsAll(path: string, port: Option<string>, base: string, upstream: string -> Reply)
    requires base != ""
    requires QueryGet(Parse(ResolveRequestUrl(path, port)).value.query, "q").None?
    ensures Get(path, port, Some(base), upstream).sent == Some(DropTrailingSlash(base) + ProductsPath)
  {
    var prefix := DropTrailingSlash(base) + ProductsPath;
    assert QueryOf(path, port) == "";
    assert UpstreamUrl(base, "") == prefix + SearchSuffix("") == prefix;
  }
}
