/**
 * The checkout proxy (src/app/api/checkout/route.ts): it normalises the posted line
 * items, works out where the admin service's checkout endpoint is from the configured
 * public API address, forwards the request there and passes the answer back.
 */
module CheckoutRoute {
  import opened Wrappers
  import opened Text
  import opened Json
  import opened Urls
  import opened Http

  /** A line item as forwarded to the admin service; `name` is left out when missing. */
  datatype ForwardItem = ForwardItem(productId: string, name: Option<string>, quantity: int)

  /** The path every forward URL targets. */
  const CheckoutPath := "/api/checkout"

  // --------------------------------------------------------------- items

  /**
   * One posted item: the id as text, trimmed; the name trimmed when it is a string and
   * dropped otherwise; the quantity as a number, with 0 for anything that is not one.
   * A `null` item makes the member read throw (`None`).
   */
  function NormalizeItem(it: Json): (r: Option<ForwardItem>)
    ensures r.None? <==> it == JNull
  {
    if it == JNull then None
    else
      var name := Member(it, "name");
      Some(ForwardItem(
        Trim(OptToJsString(Member(it, "productId"))),
        if name.Some? && name.value.JStr? then Some(Trim(name.value.s)) else None,
        NumberOr(Member(it, "quantity"), 0)))
  }

  /** What a normalised item holds: a trimmed id, a trimmed string name or none, a numeric quantity or 0. */
  lemma NormalizeItemSpec(it: Json)
    requires it != JNull
    ensures var r := NormalizeItem(it).value;
      && Trim(r.productId) == r.productId
      && (r.name.Some? <==> Member(it, "name").Some? && Member(it, "name").value.JStr?)
      && (r.name.Some? ==> r.name.value == Trim(Member(it, "name").value.s) && Trim(r.name.value) == r.name.value)
      && (r.quantity == 0 || ToNumber(Member(it, "quantity")) == Some(r.quantity))
  {
  }

  /** `itemsRaw.map(...)`: every item in order, or `None` when one of them is `null`. */
  function NormalizeItems(raw: seq<Json>): (r: Option<seq<ForwardItem>>)
    ensures r.Some? <==> forall i :: 0 <= i < |raw| ==> raw[i] != JNull
    ensures r.Some? ==> |r.value| == |raw|
    ensures r.Some? ==> forall i :: 0 <= i < |raw| ==> Some(r.value[i]) == NormalizeItem(raw[i])
  {
    if exists i :: 0 <= i < |raw| && raw[i] == JNull then None
    else Some(seq(|raw|, i requires 0 <= i < |raw| => NormalizeItem(raw[i]).value))
  }

  /**
   * An item with a string id and name and a non-zero numeric quantity is forwarded with its id
   * and name trimmed and its quantity as it was.
   */
  lemma NormalizeWellFormedItem(it: Json, id: string, name: string, q: int)
    requires it.JObj? && Member(it, "productId") == Some(JStr(id))
    requires Member(it, "name") == Some(JStr(name)) && Member(it, "quantity") == Some(JNum(q))
    requires q != 0
    ensures NormalizeItem(it) == Some(ForwardItem(Trim(id), Some(Trim(name)), q))
  {
    TextReadsBack(Member(it, "productId"), id);
    NumberReadsBack(Member(it, "quantity"), q);
  }

  /** An item whose id and name are already trimmed is forwarded unchanged. */
  lemma NormalizeTrimmedItem(it: Json, id: string, name: string, q: int)
    requires it.JObj? && Member(it, "productId") == Some(JStr(id))
    requires Member(it, "name") == Some(JStr(name)) && Member(it, "quantity") == Some(JNum(q))
    requires Trim(id) == id && Trim(name) == name && q != 0
    ensures NormalizeItem(it) == Some(ForwardItem(id, Some(name), q))
  {
    NormalizeWellFormedItem(it, id, name, q);
  }

  lemma TextReadsBack(o: Option<Json>, s: string)
    requires o == Some(JStr(s))
    ensures OptToJsString(o) == s
  {
  }

  lemma NumberReadsBack(o: Option<Json>, q: int)
    requires o == Some(JNum(q)) && q != 0
    ensures NumberOr(o, 0) == q
  {
  }

  /** A quantity that is not a number is forwarded as 0, and a name that is not a string is dropped. */
  lemma NormalizeOddItem(it: Json, name: int, quantity: string)
    requires it.JObj? && Member(it, "name") == Some(JNum(name))
    requires Member(it, "quantity") == Some(JStr(quantity)) && NumberOf(quantity).None?
    ensures NormalizeItem(it).value.name == None
    ensures NormalizeItem(it).value.quantity == 0
  {
  }

  /** How a forwarded item is written into the payload (`JSON.stringify` drops a missing name). */
  function ItemJson(it: ForwardItem): Json {
    JObj(map["productId" := JStr(it.productId), "quantity" := JNum(it.quantity)]
      + (if it.name.Some? then map["name" := JStr(it.name.value)] else map[]))
  }

  function ItemsJson(items: seq<ForwardItem>): (j: Json)
    ensures j.JArr? && |j.elems| == |items|
  {
    JArr(seq(|items|, i requires 0 <= i < |items| => ItemJson(items[i])))
  }

  // --------------------------------------------------------- forward URL

  /**
   * Where the checkout is forwarded, from the trimmed configured base address, the
   * request's `host` header and its `x-forwarded-proto` header. An empty header counts
   * as missing. A base that looks absolute but does not parse takes the error path.
   */
  function ForwardUrl(raw: string, host: Option<string>, proto: Option<string>): string {
    var scheme := if proto.Some? && proto.value != "" then proto.value else "http";
    var hasHost := host.Some? && host.value != "";
    var hostOrigin := if hasHost then scheme + "://" + host.value else "";
    if HasHttpScheme(raw) then
      match Parse(raw)
      case None => DropTrailingSlash(raw) + CheckoutPath
      case Some(u) =>
        if EndsWithCI(u.path, CheckoutPath) then DropTrailingSlash(raw)
        else if StoreIdLike(u.path) then Origin(u) + CheckoutPath
        else Origin(u) + CheckoutPath
    else if EndsWithCI(raw, CheckoutPath) then
      if hasHost then hostOrigin + DropTrailingSlash(raw) else DropTrailingSlash(raw)
    else if StoreIdLike(raw) then
      if hasHost then hostOrigin + CheckoutPath else CheckoutPath
    else
      if hasHost then hostOrigin + CheckoutPath else DropTrailingSlash(raw) + CheckoutPath
  }

  /** An absolute base already naming the checkout endpoint is used as it is, less one trailing slash. */
  lemma AbsoluteCheckoutBase(raw: string, host: Option<string>, proto: Option<string>)
    requires HasHttpScheme(raw) && Parse(raw).Some? && EndsWithCI(Parse(raw).value.path, CheckoutPath)
    ensures ForwardUrl(raw, host, proto) == DropTrailingSlash(raw)
  {
  }

  /**
   * Any other absolute base loses its path: the store-id-like branch and the generic
   * branch give the same address, the origin followed by `/api/checkout`, and the
   * request headers play no part.
   */
  lemma AbsoluteBaseUsesOrigin(raw: string, host: Option<string>, proto: Option<string>)
    requires HasHttpScheme(raw) && Parse(raw).Some? && !EndsWithCI(Parse(raw).value.path, CheckoutPath)
    ensures ForwardUrl(raw, host, proto) == Origin(Parse(raw).value) + CheckoutPath
    ensures ForwardUrl(raw, host, proto) == ForwardUrl(raw, None, None)
  {
  }

  /** A relative base ending in `/api/checkout` cannot end in a slash, so it is used verbatim. */
  lemma RelativeCheckoutBase(raw: string, host: string, proto: Option<string>)
    requires !HasHttpScheme(raw) && EndsWithCI(raw, CheckoutPath)
    ensures ForwardUrl(raw, None, proto) == raw
    ensures host != "" ==>
      ForwardUrl(raw, Some(host), proto)
        == (if proto.Some? && proto.value != "" then proto.value else "http") + "://" + host + raw
  {
    var tail := raw[|raw| - 13..];
    assert Lower(tail) == Lower(CheckoutPath);
    assert Lower(CheckoutPath)[12] == LowerChar('t') == 't';
    assert LowerChar(tail[12]) == 't';
    assert tail[12] == raw[|raw| - 1];
  }

  /**
   * Any other relative base, given a host header, becomes that host's checkout endpoint,
   * over `http` unless `x-forwarded-proto` says otherwise; without a host it is
   * `/api/checkout` for a store-id-like base and the base plus `/api/checkout` otherwise.
   */
  lemma RelativeOtherBase(raw: string, host: string, proto: Option<string>)
    requires !HasHttpScheme(raw) && !EndsWithCI(raw, CheckoutPath)
    ensures host != "" ==> ForwardUrl(raw, Some(host), None) == "http://" + host + CheckoutPath
    ensures host != "" && proto.Some? && proto.value != "" ==>
      ForwardUrl(raw, Some(host), proto) == proto.value + "://" + host + CheckoutPath
    ensures StoreIdLike(raw) ==> ForwardUrl(raw, None, proto) == CheckoutPath
    ensures !StoreIdLike(raw) ==> ForwardUrl(raw, None, proto) == DropTrailingSlash(raw) + CheckoutPath
  {
    assert "http" + "://" == "http://";
  }

  /** An absolute-looking base that does not parse takes the fallback instead of failing. */
  lemma UnparseableBase(raw: string, host: Option<string>, proto: Option<string>)
    requires HasHttpScheme(raw) && Parse(raw).None?
    ensures ForwardUrl(raw, host, proto) == DropTrailingSlash(raw) + CheckoutPath
  {
  }

  // -------------------------------------------------------------- handler

  /** The request this route sent upstream: address and JSON payload. */
  datatype Forward = Forward(url: string, payload: Json)

  /** What the handler answered, and the request it forwarded, if any. */
  datatype Outcome = Outcome(response: Response, sent: Option<Forward>)

  /**
   * `{...(body || {}), items}`: what spreading the posted body copies (see `Spread`; a falsy
   * body spreads `{}`), with `items` set to the normalised items.
   */
  function Payload(body: Json, items: seq<ForwardItem>): (p: Json)
    ensures p.JObj? && Member(p, "items") == Some(ItemsJson(items))
    ensures forall k :: k != "items" && body.JObj? && k in body.fields ==> Member(p, k) == Some(body.fields[k])
    ensures body.JArr? ==> forall i :: 0 <= i < |body.elems| ==>
      Member(p, IndexKey(i)) == Some(body.elems[i])
    ensures body.JStr? ==> forall i :: 0 <= i < |body.s| ==>
      Member(p, IndexKey(i)) == Some(JStr([body.s[i]]))
    ensures forall k :: k != "items" && k in p.fields ==> k in Spread(body) && p.fields[k] == Spread(body)[k]
  {
    SpreadOfFalsy(body);
    var spread := Spread(if Truthy(body) then body else JObj(map[]));
    ArrayKeysKept(body, spread, items);
    StringKeysKept(body, spread, items);
    WithItems(spread, items)
  }

  /** An object holding the members of `m`, with `items` set to the normalised items. */
  function WithItems(m: map<string, Json>, items: seq<ForwardItem>): (p: Json)
    ensures p.JObj? && Member(p, "items") == Some(ItemsJson(items))
    ensures forall k :: k != "items" && k in m ==> Member(p, k) == Some(m[k])
    ensures forall k :: k != "items" && k in p.fields ==> k in m && p.fields[k] == m[k]
  {
    JObj(m["items" := ItemsJson(items)])
  }

  lemma ArrayKeysKept(body: Json, spread: map<string, Json>, items: seq<ForwardItem>)
    requires spread == Spread(body)
    ensures body.JArr? ==> forall i :: 0 <= i < |body.elems| ==>
      Member(WithItems(spread, items), IndexKey(i)) == Some(body.elems[i])
  {
    IndexKeysAreNotItems();
  }

  lemma StringKeysKept(body: Json, spread: map<string, Json>, items: seq<ForwardItem>)
    requires spread == Spread(body)
    ensures body.JStr? ==> forall i :: 0 <= i < |body.s| ==>
      Member(WithItems(spread, items), IndexKey(i)) == Some(JStr([body.s[i]]))
  {
    IndexKeysAreNotItems();
  }

  /**
   * A posted array is spread too: `[x, y]` reaches the admin service as
   * `{"0": x, "1": y, "items": []}`.
   */
  lemma PayloadOfArrayBody(x: Json, y: Json)
    ensures Payload(JArr([x, y]), []) == JObj(map["0" := x, "1" := y, "items" := JArr([])])
  {
    var xs := [x, y];
    var zero, one := IndexKey(0), IndexKey(1);
    assert xs[..1] == [x] && [x][..0] == [];
    assert IndexMap([x]) == IndexMap([])[zero := x] == map[zero := x];
    assert IndexMap(xs) == IndexMap([x])[one := y];
    assert ItemsJson([]) == JArr([]);
    FirstIndexNames(zero, one);
  }

  lemma FirstIndexNames(zero: string, one: string)
    requires zero == IndexKey(0) && one == IndexKey(1)
    ensures zero == "0" && one == "1"
  {
  }

  /** No index key is `"items"`, so a spread array or string never clashes with the items. */
  lemma IndexKeysAreNotItems()
    ensures forall i: nat :: IndexKey(i) != "items"
  {
    forall i: nat
      ensures IndexKey(i) != "items"
    {
      var k := IndexKey(i);
      assert IsDigit(k[0]);
      assert !IsDigit("items"[0]);
    }
  }

  /** `body?.items || []`: the posted items, or none when they are missing or falsy. */
  function ItemsRaw(b: Json): (r: Json)
    ensures OptTruthy(Member(b, "items")) ==> r == Member(b, "items").value
    ensures !OptTruthy(Member(b, "items")) ==> r == JArr([])
  {
    var listed := Member(b, "items");
    if OptTruthy(listed) then listed.value else JArr([])
  }

  /**
   * `POST /api/checkout`. `baseEnv` is the configured public API address, `host` and
   * `proto` the request headers, `upstream` the admin service's reply to the forward.
   */
  function Post(body: RequestBody, baseEnv: Option<string>, host: Option<string>,
                proto: Option<string>, upstream: Forward -> Reply): (o: Outcome)
    ensures body.Unparseable? ==> o == Outcome(ErrorResponse(500, body.error), None)
    ensures o.sent.Some? ==> baseEnv.Some? && baseEnv.value != ""
    ensures o.sent.Some? ==> o.sent.value.url == ForwardUrl(Trim(baseEnv.value), host, proto)
    ensures o.sent.Some? ==> o.response == PassThrough(upstream(o.sent.value))
    ensures o.sent.Some? && upstream(o.sent.value).Answer? && BodyAllowed(upstream(o.sent.value).status) ==>
      o.response.status == (if Ok(upstream(o.sent.value).status) then 200 else upstream(o.sent.value).status)
    ensures o.sent.Some? ==>
      && body.Parsed? && body.json != JNull && ItemsRaw(body.json).JArr?
      && NormalizeItems(ItemsRaw(body.json).elems).Some?
      && o.sent.value.payload == Payload(body.json, NormalizeItems(ItemsRaw(body.json).elems).value)
    ensures o.sent.None? ==> o.response.status == 500
  {
    match body
    case Unparseable(e) => Outcome(ErrorResponse(500, e), None)
    case Parsed(b) =>
      if b == JNull then Outcome(Response(500, ExceptionBody), None)
      else
        var itemsRaw := ItemsRaw(b);
        if !itemsRaw.JArr? then Outcome(Response(500, ExceptionBody), None)
        else
          match NormalizeItems(itemsRaw.elems)
          case None => Outcome(Response(500, ExceptionBody), None)
          case Some(items) =>
            if baseEnv.None? || baseEnv.value == "" then
              Outcome(ErrorResponse(500, "PUBLIC_API_URL not configured"), None)
            else
              var fwd := Forward(ForwardUrl(Trim(baseEnv.value), host, proto), Payload(b, items));
              Outcome(PassThrough(upstream(fwd)), Some(fwd))
  }

  /**
   * The answer to the browser: an upstream failure keeps its status and body, a success
   * becomes 200, a body that is not JSON becomes `{}`, and a failed fetch becomes 500.
   * A failure status no response with a body may carry (304) makes building the answer
   * throw, which the handler also answers with 500.
   */
  function PassThrough(reply: Reply): (r: Response)
    ensures reply.Thrown? ==> r == ErrorResponse(500, reply.error)
    ensures reply.Answer? && (Ok(reply.status) || BodyAllowed(reply.status)) ==>
      r.status == (if Ok(reply.status) then 200 else reply.status)
    ensures reply.Answer? && (Ok(reply.status) || BodyAllowed(reply.status)) && reply.json.Some? ==>
      r.body == JsonBody(reply.json.value)
    ensures reply.Answer? && (Ok(reply.status) || BodyAllowed(reply.status)) && reply.json.None? ==>
      r.body == JsonBody(JObj(map[]))
    ensures reply.Answer? && !Ok(reply.status) && !BodyAllowed(reply.status) ==> r == Response(500, ExceptionBody)
  {
    match reply
    case Thrown(e) => ErrorResponse(500, e)
    case Answer(status, _, json) =>
      var j := if json.Some? then json.value else JObj(map[]);
      if Ok(status) then Response(200, JsonBody(j))
      else if BodyAllowed(status) then Response(status, JsonBody(j))
      else Response(500, ExceptionBody)
  }

  /** Without a configured base nothing is forwarded and the answer is the configuration error. */
  lemma MissingBaseForwardsNothing(items: seq<Json>, host: Option<string>, proto: Option<string>, upstream: Forward -> Reply)
    requires forall i :: 0 <= i < |items| ==> items[i] != JNull
    ensures Post(Parsed(JObj(map["items" := JArr(items)])), None, host, proto, upstream)
         == Outcome(ErrorResponse(500, "PUBLIC_API_URL not configured"), None)
  {
  }

  /** Flags posted beside the items, such as `validateOnly`, reach the admin service unchanged. */
  lemma PayloadKeepsFlags(fields: map<string, Json>, items: seq<Json>, base: string,
                          host: Option<string>, proto: Option<string>, upstream: Forward -> Reply)
    requires "items" in fields && fields["items"] == JArr(items)
    requires forall i :: 0 <= i < |items| ==> items[i] != JNull
    requires base != ""
    ensures var o := Post(Parsed(JObj(fields)), Some(base), host, proto, upstream);
      && o.sent.Some?
      && (forall k :: k in fields && k != "items" ==> Member(o.sent.value.payload, k) == Some(fields[k]))
      && Member(o.sent.value.payload, "items") == Some(ItemsJson(NormalizeItems(items).value))
  {
    var b := JObj(fields);
    ListedItems(fields, items);
    var o := Post(Parsed(b), Some(base), host, proto, upstream);
    assert o.sent.Some?;
    assert o.sent.value.payload == Payload(b, NormalizeItems(items).value);
  }

  lemma ListedItems(fields: map<string, Json>, items: seq<Json>)
    requires "items" in fields && fields["items"] == JArr(items)
    ensures ItemsRaw(JObj(fields)) == JArr(items)
  {
    assert Member(JObj(fields), "items") == Some(JArr(items));
  }
}
