/**
 * The reviews proxy (src/app/api/reviews/route.ts): reviews live in the admin service,
 * and the storefront's `/api/reviews` passes reads and new reviews through to it.
 * The admin service's answers are supplied by the caller as `Reply` values.
 */
module ReviewsRoute {
  import opened Wrappers
  import opened Text
  import opened Json
  import opened Urls
  import opened Percent
  import opened Http
  import CheckoutRoute

  /** The admin service's reviews endpoint, relative to its base address. */
  const ReviewsPath := "/api/reviews"

  /** The members of a review that are forwarded; anything else in the posted body is dropped. */
  const ReviewFields: set<string> := {"productId", "name", "rating", "comment"}

  /** `ADMIN_API_URL || NEXT_PUBLIC_ADMIN_API_URL`: the first of the two that is set and not empty. */
  function AdminBase(adminEnv: Option<string>, publicEnv: Option<string>): (r: Option<string>)
    ensures r.Some? <==> (adminEnv.Some? && adminEnv.value != "") || (publicEnv.Some? && publicEnv.value != "")
    ensures adminEnv.Some? && adminEnv.value != "" ==> r == adminEnv
    ensures (adminEnv.None? || adminEnv.value == "") ==> r == (if publicEnv.Some? && publicEnv.value != "" then publicEnv else None)
  {
    if adminEnv.Some? && adminEnv.value != "" then adminEnv
    else if publicEnv.Some? && publicEnv.value != "" then publicEnv
    else None
  }

  /** `${normalizeAdminUrl(ADMIN_API_URL)}/api/reviews`: one trailing slash of the base is dropped first. */
  function ReviewsEndpoint(admin: string): (r: string)
    ensures EndsWith(r, ReviewsPath)
    ensures EndsWith(admin, "/") ==> r == admin[..|admin| - 1] + ReviewsPath
    ensures !EndsWith(admin, "/") ==> r == admin + ReviewsPath
  {
    var r := DropTrailingSlash(admin) + ReviewsPath;
    assert r[|r| - |ReviewsPath|..] == ReviewsPath;
    r
  }

  /** A base written with or without its trailing slash names the same endpoint. */
  lemma EndpointIgnoresTrailingSlash(admin: string)
    requires !EndsWith(admin, "/")
    ensures ReviewsEndpoint(admin + "/") == ReviewsEndpoint(admin)
  {
    var s := admin + "/";
    assert s[|s| - 1..] == "/";
    assert s[..|s| - 1] == admin;
  }

  /** Only one slash is removed: a base ending in two keeps one of them. */
  lemma EndpointKeepsSecondSlash(admin: string)
    ensures ReviewsEndpoint(admin + "//") == admin + "/" + ReviewsPath
  {
    var s := admin + "//";
    assert s[|s| - 1..] == "/";
    assert s[..|s| - 1] == admin + "/";
  }

  /**
   * `url.searchParams.set(name, value)` on a URL whose query is empty or holds no pair
   * named `name`: the pair, form-encoded, goes at the end of the query.
   */
  function WithParam(u: Url, name: string, value: string): (r: Url)
    ensures r.scheme == u.scheme && r.host == u.host && r.path == u.path
    ensures u.query == "" ==> r.query == name + "=" + FormEncode(value)
    ensures u.query != "" ==> r.query == u.query + "&" + name + "=" + FormEncode(value)
  {
    var pair := name + "=" + FormEncode(value);
    u.(query := if u.query == "" then pair else u.query + "&" + pair)
  }

  /**
   * The answer relayed to the browser: the admin service's status is kept; its body is
   * relayed as JSON when it reads as JSON (an empty body as `null`) and as plain text
   * otherwise; a fetch that fails becomes 502 "admin unreachable". A status no response
   * with a body may carry (204, 205, 304) makes building the answer throw, and that too
   * ends as 502 "admin unreachable".
   */
  function Relay(reply: Reply): (r: Response)
    ensures reply.Thrown? ==> r == ErrorResponse(502, "admin unreachable")
    ensures reply.Answer? && !BodyAllowed(reply.status) ==> r == ErrorResponse(502, "admin unreachable")
    ensures reply.Answer? && BodyAllowed(reply.status) ==> r.status == reply.status
    ensures reply.Answer? && BodyAllowed(reply.status) && reply.text == "" ==> r.body == JsonBody(JNull)
    ensures reply.Answer? && BodyAllowed(reply.status) && reply.text != "" && reply.json.Some? ==>
      r.body == JsonBody(reply.json.value)
    ensures reply.Answer? && BodyAllowed(reply.status) && reply.text != "" && reply.json.None? ==>
      r.body == TextBody(reply.text)
  {
    match reply
    case Thrown(_) => ErrorResponse(502, "admin unreachable")
    case Answer(status, text, json) =>
      if !BodyAllowed(status) then ErrorResponse(502, "admin unreachable")
      else if text == "" then Response(status, JsonBody(JNull))
      else if json.Some? then Response(status, JsonBody(json.value))
      else Response(status, TextBody(text))
  }

  /**
   * Unlike the checkout proxy, the reviews proxy never rewrites a status it can answer
   * with: the browser sees the admin service's status exactly when a response may carry
   * a body with it, so a success other than 200 reaches the browser where the checkout
   * proxy would say 200, and a 204 becomes a 502 where the checkout proxy would say 200.
   */
  lemma RelayKeepsEveryStatus(status: int, text: string, json: Option<Json>)
    ensures Relay(Answer(status, text, json)).status == status <==> BodyAllowed(status)
    ensures Ok(status) && status != 200 && BodyAllowed(status) ==>
      Relay(Answer(status, text, json)).status != CheckoutRoute.PassThrough(Answer(status, text, json)).status
    ensures Relay(Answer(204, text, json)).status == 502 && CheckoutRoute.PassThrough(Answer(204, text, json)).status == 200
  {
  }

  // -------------------------------------------------------------------- GET

  /** What `GET` answered, and the admin URL it read from, if any. */
  datatype GetOutcome = GetOutcome(response: Response, sent: Option<Url>)

  /** `searchParams.get(name)` on the request URL, after the localhost fallback. */
  function RequestParam(requestUrl: string, port: Option<string>, name: string): Option<string> {
    QueryGet(Parse(ResolveRequestUrl(requestUrl, port)).value.query, name)
  }

  /**
   * `GET /api/reviews`: without an admin base, 503; otherwise the admin service's
   * reviews endpoint is read, carrying the request's `productId` only when the request
   * has a non-empty one. An admin base that does not parse as a URL makes the handler
   * throw before anything is fetched. `upstream` gives the admin service's reply to a
   * read of an address.
   */
  function Get(requestUrl: string, port: Option<string>, adminEnv: Option<string>, publicEnv: Option<string>,
               upstream: string -> Reply): (o: GetOutcome)
    ensures AdminBase(adminEnv, publicEnv).None? ==>
      o == GetOutcome(ErrorResponse(503, "ADMIN_API_URL not configured"), None)
    ensures o.sent.Some? ==> AdminBase(adminEnv, publicEnv).Some?
    ensures o.sent.Some? ==> o.response == Relay(upstream(Serialize(o.sent.value)))
    ensures AdminBase(adminEnv, publicEnv).Some? && o.sent.None? ==> o.response == Response(500, ExceptionBody)
  {
    match AdminBase(adminEnv, publicEnv)
    case None => GetOutcome(ErrorResponse(503, "ADMIN_API_URL not configured"), None)
    case Some(admin) =>
      var productId := RequestParam(requestUrl, port, "productId");
      match Parse(ReviewsEndpoint(admin))
      case None => GetOutcome(Response(500, ExceptionBody), None)
      case Some(u) =>
        var target := if productId.Some? && productId.value != "" then WithParam(u, "productId", productId.value) else u;
        GetOutcome(Relay(upstream(Serialize(target))), Some(target))
  }

  /**
   * The admin read carries the request's `productId` exactly when the request has a
   * non-empty one, and the admin service reads the same value back; the
   * rest of the address is the reviews endpoint.
   */
  lemma GetForwardsProductId(requestUrl: string, port: Option<string>, adminEnv: Option<string>,
                             publicEnv: Option<string>, upstream: string -> Reply)
    requires AdminBase(adminEnv, publicEnv).Some?
    requires Parse(ReviewsEndpoint(AdminBase(adminEnv, publicEnv).value)).Some?
    requires Parse(ReviewsEndpoint(AdminBase(adminEnv, publicEnv).value)).value.query == ""
    ensures var o := Get(requestUrl, port, adminEnv, publicEnv, upstream);
      var u := Parse(ReviewsEndpoint(AdminBase(adminEnv, publicEnv).value)).value;
      var pid := RequestParam(requestUrl, port, "productId");
      && o.sent.Some?
      && o.sent.value.(query := "") == u
      && (pid.Some? && pid.value != "" ==> QueryGet(o.sent.value.query, "productId") == Some(pid.value))
      && (pid.None? || pid.value == "" ==> o.sent.value.query == "")
  {
    var pid := RequestParam(requestUrl, port, "productId");
    var o := Get(requestUrl, port, adminEnv, publicEnv, upstream);
    if pid.Some? && pid.value != "" {
      assert o.sent.value.query == "productId" + "=" + FormEncode(pid.value);
      ProductIdReadsBack(pid.value);
    }
  }

  lemma ProductIdReadsBack(value: string)
    ensures QueryGet("productId" + "=" + FormEncode(value), "productId") == Some(value)
  {
    ParamReadsBack("productId", value);
  }

  /** A pair written by `WithParam` is read back as the value it was given. */
  lemma ParamReadsBack(name: string, value: string)
    requires '&' !in name && '=' !in name && '+' !in name && '%' !in name
    ensures QueryGet(name + "=" + FormEncode(value), name) == Some(value)
  {
    FormEncodeNoSeparators(value);
    QueryGetSingle(name, FormEncode(value));
    FormDecodeOfFormEncode(value);
  }

  // ------------------------------------------------------------------- POST

  /** What `POST` answered, and the review it forwarded to the reviews endpoint, if any. */
  datatype PostOutcome = PostOutcome(response: Response, sent: Option<(string, Json)>)

  /**
   * `JSON.stringify({ productId, name, rating, comment })`: those four members of the
   * posted body and nothing else; a member the body lacks is left out.
   */
  function ReviewPayload(body: Json): (p: Json)
    ensures p.JObj? && p.fields.Keys <= ReviewFields
    ensures forall k :: k in ReviewFields ==> Member(p, k) == Member(body, k)
  {
    if body.JObj? then JObj(map k | k in ReviewFields && k in body.fields :: body.fields[k])
    else JObj(map[])
  }

  /**
   * `POST /api/reviews`: without an admin base, 503; a body that does not parse, 400
   * "invalid"; a body without a truthy `productId` and `name`, 400 and nothing is
   * forwarded; otherwise the review goes to the reviews endpoint and the answer is
   * relayed. `upstream` gives the admin service's reply to a post of a payload to an address.
   */
  function Post(adminEnv: Option<string>, publicEnv: Option<string>, body: RequestBody,
                upstream: (string, Json) -> Reply): (o: PostOutcome)
    ensures AdminBase(adminEnv, publicEnv).None? ==>
      o == PostOutcome(ErrorResponse(503, "ADMIN_API_URL not configured"), None)
    ensures AdminBase(adminEnv, publicEnv).Some? && body.Unparseable? ==>
      o == PostOutcome(ErrorResponse(400, "invalid"), None)
    ensures o.sent.Some? <==>
      AdminBase(adminEnv, publicEnv).Some? && body.Parsed?
      && OptTruthy(Member(body.json, "productId")) && OptTruthy(Member(body.json, "name"))
    ensures AdminBase(adminEnv, publicEnv).Some? && body.Parsed? && o.sent.None? ==>
      o.response == ErrorResponse(400, "productId and name are required")
    ensures o.sent.Some? ==>
      && o.sent.value.0 == ReviewsEndpoint(AdminBase(adminEnv, publicEnv).value)
      && o.sent.value.1 == ReviewPayload(body.json)
      && o.response == Relay(upstream(o.sent.value.0, o.sent.value.1))
  {
    match AdminBase(adminEnv, publicEnv)
    case None => PostOutcome(ErrorResponse(503, "ADMIN_API_URL not configured"), None)
    case Some(admin) =>
      match body
      case Unparseable(_) => PostOutcome(ErrorResponse(400, "invalid"), None)
      case Parsed(b) =>
        if !OptTruthy(Member(b, "productId")) || !OptTruthy(Member(b, "name")) then
          PostOutcome(ErrorResponse(400, "productId and name are required"), None)
        else
          var url := ReviewsEndpoint(admin);
          var payload := ReviewPayload(b);
          PostOutcome(Relay(upstream(url, payload)), Some((url, payload)))
  }

  /**
   * A complete review reaches the admin service with its four members intact and
   * without whatever else the browser posted, such as a forged `approved` flag.
   */
  lemma PostDropsExtraMembers(fields: map<string, Json>, admin: string, upstream: (string, Json) -> Reply)
    requires admin != ""
    requires "productId" in fields && Truthy(fields["productId"])
    requires "name" in fields && Truthy(fields["name"])
    ensures var o := Post(Some(admin), None, Parsed(JObj(fields)), upstream);
      && o.sent.Some?
      && o.sent.value.1.fields.Keys == fields.Keys * ReviewFields
      && (forall k :: k in fields && k in ReviewFields ==> o.sent.value.1.fields[k] == fields[k])
  {
    var p := ReviewPayload(JObj(fields));
    forall k | k in fields.Keys * ReviewFields
      ensures k in p.fields
    {
      assert Member(p, k) == Member(JObj(fields), k);
    }
  }

  /** A review with an empty name is refused whatever else it holds, and nothing is posted. */
  lemma PostRefusesEmptyName(fields: map<string, Json>, admin: string, upstream: (string, Json) -> Reply)
    requires admin != "" && "name" in fields && fields["name"] == JStr("")
    ensures Post(Some(admin), None, Parsed(JObj(fields)), upstream)
         == PostOutcome(ErrorResponse(400, "productId and name are required"), None)
  {
  }
}
