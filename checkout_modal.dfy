/**
 * The checkout dialog (src/components/modals/checkout-modal.tsx): it asks the checkout
 * endpoint to validate the cart's stock when it opens, looks up the store's payment and
 * shipping methods, and on submit validates again, checks the customer's details,
 * commits the order, and on success empties the cart and closes itself.
 *
 * Every network answer is an input: `validateNet` and `commitNet` answer the POSTs of
 * the validation and the commit, `get` answers the GETs of the store lookup.
 */
module CheckoutModal {
  import opened Wrappers
  import opened Text
  import opened Json
  import opened Urls
  import opened Http
  import opened CartProvider
  import opened UseCheckoutModal
  import CheckoutRoute

  // ------------------------------------------------------------ request body

  /** One line of the request body: the name falls back to the id. */
  datatype PayloadItem = PayloadItem(productId: string, name: string, quantity: int)

  function PayloadItemOf(it: CartItem): PayloadItem {
    PayloadItem(it.product.id, it.product.name.GetOr(it.product.id), it.quantity)
  }

  /** `buildItemsPayload(items)` */
  function BuildItemsPayload(items: seq<CartItem>): (r: seq<PayloadItem>)
    ensures |r| == |items|
    ensures forall i :: 0 <= i < |items| ==>
      r[i].productId == items[i].product.id && r[i].quantity == items[i].quantity
    ensures forall i :: 0 <= i < |items| ==> r[i].name == items[i].product.name.GetOr(items[i].product.id)
  {
    seq(|items|, i requires 0 <= i < |items| => PayloadItemOf(items[i]))
  }

  function PayloadItemJson(it: PayloadItem): Json {
    JObj(map["productId" := JStr(it.productId), "name" := JStr(it.name), "quantity" := JNum(it.quantity)])
  }

  function PayloadJson(items: seq<PayloadItem>): (j: Json)
    ensures j.JArr? && |j.elems| == |items|
  {
    JArr(seq(|items|, i requires 0 <= i < |items| => PayloadItemJson(items[i])))
  }

  /**
   * The POSTed body: the items, `validateOnly: true` when asked for, then every member
   * of `extra` copied over it (`Object.assign`). A missing `extra` is the empty map.
   */
  function RequestBody(items: seq<PayloadItem>, validateOnly: bool, extra: map<string, Json>): (j: Json)
    ensures j.JObj?
    ensures forall k :: k in j.fields <==> k == "items" || (validateOnly && k == "validateOnly") || k in extra
    ensures forall k :: k in extra ==> Member(j, k) == Some(extra[k])
    ensures "items" !in extra ==> Member(j, "items") == Some(PayloadJson(items))
    ensures "validateOnly" !in extra ==>
      Member(j, "validateOnly") == if validateOnly then Some(JBool(true)) else None
  {
    var base := map["items" := PayloadJson(items)];
    var flagged := if validateOnly then base["validateOnly" := JBool(true)] else base;
    JObj(flagged + extra)
  }

  /** `modal.data?.storeId ?? null` */
  function StoreIdOf(data: Option<CheckoutData>): Option<string> {
    if data.Some? then data.value.storeId else None
  }

  /** The store id counts only when it is a non-empty string. */
  predicate HasStoreId(storeId: Option<string>) { storeId.Some? && storeId.value != "" }

  /** `modalStoreId ? { storeId } : null` */
  function StoreExtra(storeId: Option<string>): map<string, Json> {
    if HasStoreId(storeId) then map["storeId" := JStr(storeId.value)] else map[]
  }

  /** The form's five fields; every one starts as "". */
  datatype FormValues = FormValues(
    fullName: string, address: string, phone: string, paymentMethod: string, shippingMethod: string)

  const EmptyForm := FormValues("", "", "", "", "")

  /** The members the commit adds to the body: the store id when known, then the customer's details. */
  function CommitExtra(storeId: Option<string>, values: FormValues): map<string, Json> {
    StoreExtra(storeId) + map[
      "customerName" := JStr(values.fullName),
      "address" := JStr(values.address),
      "paymentMethod" := JStr(values.paymentMethod),
      "phone" := JStr(values.phone),
      "shippingMethod" := JStr(values.shippingMethod)]
  }

  /** The body of a stock check: the cart's items, `validateOnly`, and the store id when known. */
  function ValidateBody(items: seq<CartItem>, storeId: Option<string>): Json {
    RequestBody(BuildItemsPayload(items), true, StoreExtra(storeId))
  }

  /** The body of the commit: the cart's items, no `validateOnly`, the store id and the customer's details. */
  function CommitBody(items: seq<CartItem>, storeId: Option<string>, values: FormValues): Json {
    RequestBody(BuildItemsPayload(items), false, CommitExtra(storeId, values))
  }

  /** The stock check asks for validation only and carries the store id exactly when one is known. */
  lemma ValidateBodyShape(items: seq<CartItem>, storeId: Option<string>)
    ensures Member(ValidateBody(items, storeId), "validateOnly") == Some(JBool(true))
    ensures Member(ValidateBody(items, storeId), "items") == Some(PayloadJson(BuildItemsPayload(items)))
    ensures HasStoreId(storeId) ==> Member(ValidateBody(items, storeId), "storeId") == Some(JStr(storeId.value))
    ensures !HasStoreId(storeId) ==> Member(ValidateBody(items, storeId), "storeId") == None
  {
  }

  /** The commit never asks for validation only, and carries the customer's details as typed. */
  lemma CommitBodyShape(items: seq<CartItem>, storeId: Option<string>, values: FormValues)
    ensures Member(CommitBody(items, storeId, values), "validateOnly") == None
    ensures Member(CommitBody(items, storeId, values), "items") == Some(PayloadJson(BuildItemsPayload(items)))
    ensures Member(CommitBody(items, storeId, values), "customerName") == Some(JStr(values.fullName))
    ensures Member(CommitBody(items, storeId, values), "address") == Some(JStr(values.address))
    ensures Member(CommitBody(items, storeId, values), "phone") == Some(JStr(values.phone))
    ensures Member(CommitBody(items, storeId, values), "paymentMethod") == Some(JStr(values.paymentMethod))
    ensures Member(CommitBody(items, storeId, values), "shippingMethod") == Some(JStr(values.shippingMethod))
    ensures HasStoreId(storeId) <==> Member(CommitBody(items, storeId, values), "storeId").Some?
  {
    CommitExtraShape(storeId, values);
  }

  lemma CommitExtraShape(storeId: Option<string>, values: FormValues)
    ensures var e := CommitExtra(storeId, values);
      && "items" !in e && "validateOnly" !in e
      && ("storeId" in e <==> HasStoreId(storeId))
      && "customerName" in e && e["customerName"] == JStr(values.fullName)
      && "address" in e && e["address"] == JStr(values.address)
      && "phone" in e && e["phone"] == JStr(values.phone)
      && "paymentMethod" in e && e["paymentMethod"] == JStr(values.paymentMethod)
      && "shippingMethod" in e && e["shippingMethod"] == JStr(values.shippingMethod)
  {
  }

  /** The line the checkout proxy forwards for a cart entry whose name and id need no trimming. */
  function ExpectedForward(it: CartItem): CheckoutRoute.ForwardItem {
    CheckoutRoute.ForwardItem(it.product.id, Some(it.product.name.GetOr(it.product.id)), it.quantity)
  }

  /**
   * The checkout proxy receives the cart as the dialog sends it: for ids and names that
   * need no trimming and non-zero quantities, every cart line reaches the admin service
   * with its id, its name (or id) and its quantity, in cart order.
   */
  lemma RouteReceivesCart(items: seq<CartItem>)
    requires forall i :: 0 <= i < |items| ==> Trim(items[i].product.id) == items[i].product.id
    requires forall i :: 0 <= i < |items| ==>
      Trim(items[i].product.name.GetOr(items[i].product.id)) == items[i].product.name.GetOr(items[i].product.id)
    requires forall i :: 0 <= i < |items| ==> items[i].quantity != 0
    ensures CheckoutRoute.NormalizeItems(PayloadJson(BuildItemsPayload(items)).elems)
      == Some(seq(|items|, i requires 0 <= i < |items| => ExpectedForward(items[i])))
  {
    var payload := BuildItemsPayload(items);
    var raw := PayloadJson(payload).elems;
    var expected := seq(|items|, i requires 0 <= i < |items| => ExpectedForward(items[i]));
    forall i | 0 <= i < |raw|
      ensures CheckoutRoute.NormalizeItem(raw[i]) == Some(expected[i])
    {
      assert raw[i] == PayloadItemJson(PayloadItemOf(items[i]));
      ItemForwarded(items[i]);
    }
    var r := CheckoutRoute.NormalizeItems(raw);
    assert r.Some?;
    assert r.value == expected;
  }

  /** One cart line, sent by the dialog, is forwarded by the proxy as it was. */
  lemma ItemForwarded(it: CartItem)
    requires Trim(it.product.id) == it.product.id
    requires Trim(it.product.name.GetOr(it.product.id)) == it.product.name.GetOr(it.product.id)
    requires it.quantity != 0
    ensures CheckoutRoute.NormalizeItem(PayloadItemJson(PayloadItemOf(it))) == Some(ExpectedForward(it))
  {
    var p := PayloadItemOf(it);
    PayloadItemMembers(p);
    CheckoutRoute.NormalizeTrimmedItem(PayloadItemJson(p), p.productId, p.name, p.quantity);
  }

  lemma PayloadItemMembers(p: PayloadItem)
    ensures PayloadItemJson(p).JObj?
    ensures Member(PayloadItemJson(p), "productId") == Some(JStr(p.productId))
    ensures Member(PayloadItemJson(p), "name") == Some(JStr(p.name))
    ensures Member(PayloadItemJson(p), "quantity") == Some(JNum(p.quantity))
  {
  }

  // -------------------------------------------------------- stock validation

  /**
   * What `validateStockRequest` returns: the status of the response it kept (`None` for
   * `res: null`), that response read as JSON (`null` when it is not JSON), the error
   * text of a fetch that threw, and the URLs it POSTed to, in order.
   */
  datatype Validation = Validation(status: Option<int>, json: Json, error: Option<string>, tried: seq<string>)

  /** `res && res.ok` */
  predicate Succeeded(v: Validation) { v.status.Some? && Ok(v.status.value) }

  /** `jsonSafe(res)` */
  function JsonSafe(r: Reply): Json
    requires r.Answer?
  {
    r.json.GetOr(JNull)
  }

  /** What a validation keeps from the last reply it received. */
  function Settle(r: Reply, tried: seq<string>): Validation {
    match r
    case Thrown(e) => Validation(None, JNull, Some(e), tried)
    case Answer(status, _, _) => Validation(Some(status), JsonSafe(r), None, tried)
  }

  /**
   * POST the body to the shop's own checkout route; when that route is not there (404)
   * and an admin address is configured, POST it once more to the admin service directly.
   * `adminUrl` is the configured address, "" when unset.
   */
  function ValidateStockRequest(body: Json, adminUrl: string, post: (string, Json) -> Reply): (v: Validation)
    ensures 1 <= |v.tried| <= 2 && v.tried[0] == CheckoutRoute.CheckoutPath
    ensures |v.tried| == 2 <==>
      post(CheckoutRoute.CheckoutPath, body).Answer? && post(CheckoutRoute.CheckoutPath, body).status == 404
      && DropTrailingSlash(adminUrl) != ""
    ensures |v.tried| == 2 ==> v.tried[1] == DropTrailingSlash(adminUrl) + CheckoutRoute.CheckoutPath
    ensures v == Settle(post(v.tried[|v.tried| - 1], body), v.tried)
    ensures v.status.None? <==> v.error.Some?
  {
    var first := post(CheckoutRoute.CheckoutPath, body);
    var adminBase := DropTrailingSlash(adminUrl);
    if first.Answer? && first.status == 404 && adminBase != "" then
      var url := adminBase + CheckoutRoute.CheckoutPath;
      Settle(post(url, body), [CheckoutRoute.CheckoutPath, url])
    else
      Settle(first, [CheckoutRoute.CheckoutPath])
  }

  /** A 404 from the shop's route with no admin address configured is a failed validation, not a retry. */
  lemma NotFoundWithoutAdmin(body: Json, post: (string, Json) -> Reply)
    requires post(CheckoutRoute.CheckoutPath, body).Answer? && post(CheckoutRoute.CheckoutPath, body).status == 404
    ensures !Succeeded(ValidateStockRequest(body, "", post))
    ensures ValidateStockRequest(body, "", post).tried == [CheckoutRoute.CheckoutPath]
  {
  }

  // ------------------------------------------------------------ store lookup

  /** The store settings URL under an origin. */
  function StoreUrl(origin: string, id: string): string { origin + "/api/stores/" + id }

  /** `tryFetch(url)`: the JSON of an ok answer, `null` for a failed status or a fetch that threw. */
  function TryFetch(r: Reply): (j: Json)
    ensures Truthy(j) ==> r.Answer? && Ok(r.status) && r.json == Some(j)
  {
    if r.Thrown? || !Ok(r.status) then JNull else r.json.GetOr(JNull)
  }

  /**
   * The addresses tried in turn for a store id: the shop's two proxies, then the store
   * endpoint under the origin of the public API address and of the admin address, each
   * only when that address is set and parses.
   */
  function StoreCandidates(storeId: string, publicApi: string, adminUrl: string): (cs: seq<string>)
    ensures 2 <= |cs| <= 4
    ensures cs[0] == "/api/admin/stores/" + storeId && cs[1] == "/api/stores/" + storeId
  {
    ["/api/admin/stores/" + storeId, "/api/stores/" + storeId]
      + OriginCandidate(publicApi, storeId)
      + OriginCandidate(adminUrl, storeId)
  }

  /** The store endpoint under the origin of `base`, when `base` is set and parses. */
  function OriginCandidate(base: string, storeId: string): (c: seq<string>)
    ensures |c| <= 1
  {
    if base != "" && Parse(base).Some? then [StoreUrl(Origin(Parse(base).value), storeId)] else []
  }

  /** The origin candidates come after the two proxies, the public API's before the admin's. */
  lemma StoreCandidatesOrder(storeId: string, publicApi: string, adminUrl: string)
    ensures var cs := StoreCandidates(storeId, publicApi, adminUrl);
      && |cs| == 2 + (if publicApi != "" && Parse(publicApi).Some? then 1 else 0)
        + (if adminUrl != "" && Parse(adminUrl).Some? then 1 else 0)
      && (publicApi != "" && Parse(publicApi).Some? ==> cs[2] == StoreUrl(Origin(Parse(publicApi).value), storeId))
      && (adminUrl != "" && Parse(adminUrl).Some? ==> cs[|cs| - 1] == StoreUrl(Origin(Parse(adminUrl).value), storeId))
  {
    var a := OriginCandidate(publicApi, storeId);
    var b := OriginCandidate(adminUrl, storeId);
    var cs := StoreCandidates(storeId, publicApi, adminUrl);
    assert cs == ["/api/admin/stores/" + storeId, "/api/stores/" + storeId] + a + b;
    if a != [] {
      assert cs[2] == a[0];
    }
    if b != [] {
      assert cs[|cs| - 1] == b[0];
    }
  }

  /** The first truthy answer among the candidates, in order; `null` when none answers. */
  function FirstTruthyFetch(cands: seq<string>, get: string -> Reply): (r: Json)
    ensures Truthy(r) ==> exists i :: (0 <= i < |cands| && r == TryFetch(get(cands[i]))
      && forall j :: 0 <= j < i ==> !Truthy(TryFetch(get(cands[j]))))
    ensures !Truthy(r) ==> r == JNull && forall i :: 0 <= i < |cands| ==> !Truthy(TryFetch(get(cands[i])))
  {
    if cands == [] then JNull
    else
      var s := TryFetch(get(cands[0]));
      if Truthy(s) then s
      else
        var r := FirstTruthyFetch(cands[1..], get);
        assert forall i :: 1 <= i < |cands| ==> cands[i] == cands[1..][i - 1];
        r
  }

  /** The `for ... of candidates` loop: fetch in order, stop at the first truthy answer. */
  method FirstStoreResponse(cands: seq<string>, get: string -> Reply) returns (resp: Json)
    ensures resp == FirstTruthyFetch(cands, get)
  {
    resp := JNull;
    var i := 0;
    while i < |cands|
      invariant 0 <= i <= |cands|
      invariant FirstTruthyFetch(cands[i..], get) == FirstTruthyFetch(cands, get)
    {
      var s := TryFetch(get(cands[i]));
      if Truthy(s) {
        resp := s;
        return;
      }
      assert cands[i..][1..] == cands[i + 1..];
      i := i + 1;
    }
  }

  /** The whole store lookup: the candidate loop, then the two fallbacks while nothing truthy came back. */
  method FetchStoreSettings(storeId: Option<string>, publicApi: string, adminUrl: string, get: string -> Reply)
    returns (resp: Json)
    ensures resp == StoreResponse(storeId, publicApi, adminUrl, get)
  {
    resp := JNull;
    if HasStoreId(storeId) {
      resp := FirstStoreResponse(StoreCandidates(storeId.value, publicApi, adminUrl), get);
    }
    var fallback := PublicApiFallback(publicApi);
    if !Truthy(resp) && fallback.Some? {
      resp := TryFetch(get(fallback.value));
    }
    var last := AdminFallback(adminUrl, storeId);
    if !Truthy(resp) && last.Some? {
      resp := TryFetch(get(last.value));
    }
  }

  /** A character `.` does not match in a regular expression. */
  predicate LineTerminator(c: char) {
    c == '\n' || c == '\r' || c as int == 0x2028 || c as int == 0x2029
  }

  /** `/\/api\/(.+)$/` matches with its `/api/` at `k`. */
  predicate ApiMatchAt(path: string, k: nat) {
    OccursAt(path, "/api/", k) && k + 5 < |path|
    && forall j :: k + 5 <= j < |path| ==> !LineTerminator(path[j])
  }

  /** The leftmost position, from `k` on, where the pattern matches. */
  function ApiMatch(path: string, k: nat): (r: Option<nat>)
    ensures r.Some? ==> k <= r.value && ApiMatchAt(path, r.value)
    ensures r.Some? ==> forall j :: k <= j < r.value ==> !ApiMatchAt(path, j)
    ensures r.None? ==> forall j :: k <= j ==> !ApiMatchAt(path, j)
    decreases |path| - k
  {
    if k + 5 >= |path| then None
    else if ApiMatchAt(path, k) then Some(k)
    else ApiMatch(path, k + 1)
  }

  /** `m[1].split("/")[0]` of the match in a public API path: the segment after `/api/`. */
  function ApiPathStoreId(path: string): (r: Option<string>)
    ensures r.Some? ==> '/' !in r.value
  {
    match ApiMatch(path, 0)
    case None => None
    case Some(k) => Some(Split(path[k + 5..], '/')[0])
  }

  /** First fallback: the store id read off a public API address like `.../api/<storeId>`. */
  function PublicApiFallback(publicApi: string): Option<string> {
    if publicApi == "" then None
    else
      match Parse(publicApi)
      case None => None
      case Some(u) =>
        match ApiPathStoreId(u.path)
        case None => None
        case Some(id) => Some(StoreUrl(Origin(u), id))
  }

  /** A segment with no `/` splits into itself. */
  lemma SplitWithoutSep(s: string, sep: char)
    requires sep !in s
    ensures Split(s, sep) == [s]
  {
    IndexOfAnyNone(s, {sep});
  }

  /** A public API path `/api/<id>` yields the store endpoint for `<id>` under the same origin. */
  lemma PublicApiFallbackOfStorePath(publicApi: string, u: Url, id: string)
    requires publicApi != "" && Parse(publicApi) == Some(u)
    requires u.path == "/api/" + id && id != "" && '/' !in id
    requires forall j :: 0 <= j < |id| ==> !LineTerminator(id[j])
    ensures PublicApiFallback(publicApi) == Some(StoreUrl(Origin(u), id))
  {
    assert u.path[5..] == id;
    assert ApiMatchAt(u.path, 0);
    SplitWithoutSep(id, '/');
  }

  /** Second fallback: the store endpoint for the dialog's store id under the admin origin. */
  function AdminFallback(adminUrl: string, storeId: Option<string>): Option<string> {
    if adminUrl != "" && Parse(adminUrl).Some? && HasStoreId(storeId)
    then Some(StoreUrl(Origin(Parse(adminUrl).value), storeId.value))
    else None
  }

  /** The second fallback only ever asks again the last candidate, which already gave nothing. */
  lemma AdminFallbackRepeatsCandidate(storeId: Option<string>, publicApi: string, adminUrl: string)
    requires AdminFallback(adminUrl, storeId).Some?
    ensures var cs := StoreCandidates(storeId.value, publicApi, adminUrl);
      AdminFallback(adminUrl, storeId).value == cs[|cs| - 1]
  {
    StoreCandidatesOrder(storeId.value, publicApi, adminUrl);
  }

  /** The store settings response: the candidates, then the two fallbacks while nothing truthy came back. */
  function StoreResponse(storeId: Option<string>, publicApi: string, adminUrl: string, get: string -> Reply): Json {
    var first := if HasStoreId(storeId)
      then FirstTruthyFetch(StoreCandidates(storeId.value, publicApi, adminUrl), get) else JNull;
    var second := if !Truthy(first) && PublicApiFallback(publicApi).Some?
      then TryFetch(get(PublicApiFallback(publicApi).value)) else first;
    if !Truthy(second) && AdminFallback(adminUrl, storeId).Some?
    then TryFetch(get(AdminFallback(adminUrl, storeId).value)) else second
  }

  /** A candidate that answers ends the lookup: neither fallback is consulted. */
  lemma CandidateAnswerWins(storeId: Option<string>, publicApi: string, adminUrl: string, get: string -> Reply)
    requires HasStoreId(storeId)
    requires Truthy(FirstTruthyFetch(StoreCandidates(storeId.value, publicApi, adminUrl), get))
    ensures StoreResponse(storeId, publicApi, adminUrl, get)
      == FirstTruthyFetch(StoreCandidates(storeId.value, publicApi, adminUrl), get)
  {
  }

  /** With no store id and no public API address, nothing is fetched and no settings are found. */
  lemma NoStoreNoSettings(publicApi: string, adminUrl: string, get: string -> Reply)
    requires publicApi == ""
    ensures StoreResponse(None, publicApi, adminUrl, get) == JNull
  {
  }

  // --------------------------------------------------------- method options

  /** One entry of a payment or shipping select. */
  datatype MethodOption = MethodOption(value: string, caption: string, disabled: bool)

  /**
   * One store method: the value is its `method`, else its `value`, else the entry
   * itself, as text; the caption prefers `label`; an entry whose `status` is not "Aktif"
   * is disabled. A `null` entry throws (`None`).
   */
  function MapOption(p: Json): (r: Option<MethodOption>)
    ensures r.None? <==> p == JNull
    ensures r.Some? ==> (r.value.disabled <==> Member(p, "status") != Some(JStr("Aktif")))
  {
    if p == JNull then None
    else
      var v := Coalesce(Coalesce(Member(p, "method"), Member(p, "value")), Some(p)).value;
      var l := Coalesce(Coalesce(Coalesce(Member(p, "label"), Member(p, "method")), Member(p, "value")), Some(p)).value;
      Some(MethodOption(ToJsString(v), ToJsString(l), Member(p, "status") != Some(JStr("Aktif"))))
  }

  /** A method given as a bare string shows that string and is disabled, since it has no status. */
  lemma BareStringOption(s: string)
    ensures MapOption(JStr(s)) == Some(MethodOption(s, s, true))
  {
  }

  /** An active method object with a `method` and a `label` shows them and can be chosen. */
  lemma ActiveMethodOption(p: Json, m: string, l: string)
    requires p.JObj? && Member(p, "method") == Some(JStr(m)) && Member(p, "label") == Some(JStr(l))
    requires Member(p, "status") == Some(JStr("Aktif"))
    ensures MapOption(p) == Some(MethodOption(m, l, false))
  {
  }

  /** `methods.map(...)`: every entry in order, or `None` when one of them is `null`. */
  function MapOptions(ps: seq<Json>): (r: Option<seq<MethodOption>>)
    ensures r.Some? <==> forall i :: 0 <= i < |ps| ==> ps[i] != JNull
    ensures r.Some? ==> |r.value| == |ps|
    ensures r.Some? ==> forall i :: 0 <= i < |ps| ==> Some(r.value[i]) == MapOption(ps[i])
  {
    if exists i :: 0 <= i < |ps| && ps[i] == JNull then None
    else Some(seq(|ps|, i requires 0 <= i < |ps| => MapOption(ps[i]).value))
  }

  /** `Array.isArray(resp[key]) && resp[key].length`: a non-empty list of methods. */
  function MethodList(resp: Json, key: string): Option<seq<Json>> {
    var m := Member(resp, key);
    if m.Some? && m.value.JArr? && |m.value.elems| > 0 then Some(m.value.elems) else None
  }

  /**
   * The options set from a store response (`None`: left as they were). A `null` payment
   * entry throws before the shipping methods are read, so neither list is set.
   */
  function OptionsFrom(resp: Json): (r: (Option<seq<MethodOption>>, Option<seq<MethodOption>>))
    ensures !Truthy(resp) ==> r == (None, None)
    ensures r.0.Some? ==> |r.0.value| > 0 && MethodList(resp, "paymentMethods").Some?
    ensures r.1.Some? ==> |r.1.value| > 0 && MethodList(resp, "shippingMethods").Some?
  {
    if !Truthy(resp) then (None, None)
    else
      var pm := MethodList(resp, "paymentMethods");
      var pay := if pm.Some? then MapOptions(pm.value) else None;
      if pm.Some? && pay.None? then (None, None)
      else
        var sm := MethodList(resp, "shippingMethods");
        (pay, if sm.Some? then MapOptions(sm.value) else None)
  }

  /** A `null` payment entry suppresses both lists; a `null` shipping entry keeps the payment list. */
  lemma NullEntryEffects(resp: Json)
    requires Truthy(resp)
    ensures MethodList(resp, "paymentMethods").Some? && MapOptions(MethodList(resp, "paymentMethods").value).None?
      ==> OptionsFrom(resp) == (None, None)
    ensures MethodList(resp, "paymentMethods").Some? && MapOptions(MethodList(resp, "paymentMethods").value).Some?
      ==> OptionsFrom(resp).0 == MapOptions(MethodList(resp, "paymentMethods").value)
  {
  }

  // -------------------------------------------------------- default choices

  /** The first option that is not disabled, from `k` on. */
  function FirstEnabled(opts: seq<MethodOption>, k: nat): (r: Option<nat>)
    ensures r.Some? ==> k <= r.value < |opts| && !opts[r.value].disabled
    ensures r.Some? ==> forall j :: k <= j < r.value ==> opts[j].disabled
    ensures r.None? ==> forall j :: k <= j < |opts| ==> opts[j].disabled
    decreases |opts| - k
  {
    if k >= |opts| then None
    else if !opts[k].disabled then Some(k)
    else FirstEnabled(opts, k + 1)
  }

  /**
   * `setDefaultFromOptions`: an empty field takes the value of the first enabled option,
   * or of the first option when all are disabled; a filled field is left alone.
   */
  function DefaultValue(opts: Option<seq<MethodOption>>, current: string): (r: string)
    ensures current != "" || opts.None? || |opts.value| == 0 ==> r == current
    ensures current == "" && opts.Some? && |opts.value| > 0 ==>
      exists i :: 0 <= i < |opts.value| && r == opts.value[i].value
  {
    if current != "" || opts.None? || |opts.value| == 0 then current
    else
      var i := FirstEnabled(opts.value, 0);
      if i.Some? then opts.value[i.value].value else opts.value[0].value
  }

  /** When some option is enabled, an empty field defaults to the first enabled one, never a disabled one. */
  lemma DefaultPrefersEnabled(opts: seq<MethodOption>, k: nat)
    requires k < |opts| && !opts[k].disabled
    requires forall j :: 0 <= j < k ==> opts[j].disabled
    ensures DefaultValue(Some(opts), "") == opts[k].value
  {
    var i := FirstEnabled(opts, 0);
    assert i.Some? && i.value == k;
  }

  // ------------------------------------------------------- failed stock list

  /** One row of the failure list; `None` fields are `undefined`. */
  datatype FailedItem = FailedItem(productId: Json, name: Option<Json>, available: Option<int>, reason: Option<Json>)

  /** A row for a whole-request failure: no product, just the reason. */
  function ErrorEntry(reason: string): FailedItem {
    FailedItem(JStr(""), None, None, Some(JStr(reason)))
  }

  /**
   * One entry of the server's `failed` list: the requested id (else the id, else ""),
   * the requested name (else the name, else `null`), the available count when it is a
   * number or numeric non-zero text, and the reason when there is one.
   */
  function FailedEntry(f: Json): (r: Option<FailedItem>)
    ensures r.None? <==> f == JNull
    ensures r.Some? ==> (r.value.reason.Some? <==> !Nullish(Member(f, "reason")))
    ensures r.Some? && r.value.available.Some? ==>
      r.value.available.value != 0 || Member(f, "available") == Some(JNum(0))
  {
    if f == JNull then None
    else
      var a := Member(f, "available");
      var available :=
        if a.Some? && a.value.JNum? then Some(a.value.n)
        else if a.Some? && a.value.JStr? && NumberOf(a.value.s).Some? && NumberOf(a.value.s).value != 0
        then NumberOf(a.value.s)
        else None;
      Some(FailedItem(
        Coalesce(Coalesce(Member(f, "requestedProductId"), Member(f, "productId")), Some(JStr(""))).value,
        Some(Coalesce(Coalesce(Member(f, "requestedName"), Member(f, "name")), Some(JNull)).value),
        available,
        if Nullish(Member(f, "reason")) then None else Member(f, "reason")))
  }

  /** `json && Array.isArray(json.failed) && json.failed.length` */
  function FailedList(json: Json): Option<seq<Json>> {
    if Truthy(json) then MethodList(json, "failed") else None
  }

  /** The reason given when the server sent no failure list. */
  function FailureReason(v: Validation): string {
    var e := Member(v.json, "error");
    if Truthy(v.json) && e.Some? && e.value.JStr? then e.value.s
    else if v.error.Some? && v.error.value != "" then v.error.value
    else "unknown"
  }

  /**
   * The failure list for a validation that did not succeed: one row per entry of the
   * server's list, or a single row with the reason. A `null` entry throws (`None`).
   */
  function Failures(v: Validation): (r: Option<seq<FailedItem>>)
    ensures r.None? <==> (FailedList(v.json).Some? && exists i :: (0 <= i < |FailedList(v.json).value|
      && FailedList(v.json).value[i] == JNull))
    ensures r.Some? ==> |r.value| >= 1
    ensures FailedList(v.json).Some? && r.Some? ==> (|r.value| == |FailedList(v.json).value|
      && forall i :: 0 <= i < |r.value| ==> Some(r.value[i]) == FailedEntry(FailedList(v.json).value[i]))
    ensures FailedList(v.json).None? ==> r == Some([ErrorEntry(FailureReason(v))])
  {
    var list := FailedList(v.json);
    if list.None? then Some([ErrorEntry(FailureReason(v))])
    else
      var es := list.value;
      if exists i :: 0 <= i < |es| && es[i] == JNull then None
      else Some(seq(|es|, i requires 0 <= i < |es| => FailedEntry(es[i]).value))
  }

  /** The loop that pushes one normalised row per failed entry. */
  method NormalizeFailures(v: Validation) returns (failed: Option<seq<FailedItem>>)
    ensures failed == Failures(v)
  {
    var list := FailedList(v.json);
    if list.None? {
      return Some([ErrorEntry(FailureReason(v))]);
    }
    var es := list.value;
    var out: seq<FailedItem> := [];
    var i := 0;
    while i < |es|
      invariant 0 <= i <= |es| && |out| == i
      invariant forall j :: 0 <= j < i ==> es[j] != JNull && Some(out[j]) == FailedEntry(es[j])
    {
      var e := FailedEntry(es[i]);
      if e.None? {
        return None;
      }
      out := out + [e.value];
      i := i + 1;
    }
    assert !exists j :: 0 <= j < |es| && es[j] == JNull;
    assert out == seq(|es|, j requires 0 <= j < |es| => FailedEntry(es[j]).value);
    return Some(out);
  }

  /** `Array.isArray(json?.failed)`: the server's `failed` member when it is an array, even an empty one. */
  function FailedArray(json: Json): Option<seq<Json>> {
    var m := Member(json, "failed");
    if m.Some? && m.value.JArr? then Some(m.value.elems) else None
  }

  /**
   * The toast raised after a failed open-time check: it counts the entries of the
   * server's `failed` array, and is raised only when that member is an array and the
   * first normalised row carries a truthy reason.
   */
  function OpenToast(v: Validation, failed: seq<FailedItem>): (t: Option<string>)
    ensures t.Some? <==> |failed| > 0 && OptTruthy(failed[0].reason) && FailedArray(v.json).Some?
    ensures t.Some? ==> t.value == NatToString(|FailedArray(v.json).value|) + " item stok tidak cukup"
  {
    if |failed| > 0 && OptTruthy(failed[0].reason) && FailedArray(v.json).Some?
    then Some(NatToString(|FailedArray(v.json).value|) + " item stok tidak cukup")
    else None
  }

  /**
   * When the server lists its failures, the toast counts exactly the rows shown, and it
   * is raised iff the first listed entry has a truthy reason.
   */
  lemma OpenToastCountsRows(v: Validation)
    requires FailedList(v.json).Some? && Failures(v).Some?
    ensures var rows := Failures(v).value;
      && (OpenToast(v, rows).Some? <==> OptTruthy(Member(FailedList(v.json).value[0], "reason")))
      && (OpenToast(v, rows).Some? ==> OpenToast(v, rows).value == NatToString(|rows|) + " item stok tidak cukup")
  {
    var es := FailedList(v.json).value;
    var rows := Failures(v).value;
    assert Some(rows[0]) == FailedEntry(es[0]);
    assert FailedArray(v.json) == Some(es);
  }

  /**
   * An empty `failed` array still raises the toast, counting zero items, whenever the
   * single reason row it falls back to is not empty.
   */
  lemma EmptyFailedArrayToast(v: Validation)
    requires FailedArray(v.json) == Some([]) && FailureReason(v) != ""
    ensures Failures(v) == Some([ErrorEntry(FailureReason(v))])
    ensures OpenToast(v, Failures(v).value) == Some(NatToString(0) + " item stok tidak cukup")
  {
    assert FailedList(v.json).None?;
  }

  /**
   * The open-time stock check: no failures when the check succeeds, the normalised list
   * otherwise, and the toast that goes with that list. A `null` entry in the server's
   * list throws before any toast is raised.
   */
  method CheckStock(items: seq<CartItem>, storeId: Option<string>, adminUrl: string, net: (string, Json) -> Reply)
    returns (failed: Option<seq<FailedItem>>, toast: Option<string>)
    ensures var v := ValidateStockRequest(ValidateBody(items, storeId), adminUrl, net);
      && failed == (if Succeeded(v) then None else Failures(v))
      && toast == (if Succeeded(v) || Failures(v).None? then None else OpenToast(v, Failures(v).value))
  {
    var v := ValidateStockRequest(ValidateBody(items, storeId), adminUrl, net);
    if Succeeded(v) {
      failed := None;
      toast := None;
    } else {
      failed := NormalizeFailures(v);
      toast := if failed.Some? then OpenToast(v, failed.value) else None;
    }
  }

  /** The submit button is disabled while there are failed items or a submit is in flight. */
  predicate SubmitDisabled(failedItems: Option<seq<FailedItem>>, isLoading: bool) {
    (failedItems.Some? && |failedItems.value| > 0) || isLoading
  }

  /** A failed validation disables submitting, unless its failure list could not be read at all. */
  lemma FailureDisablesSubmit(v: Validation, isLoading: bool)
    requires Failures(v).Some?
    ensures SubmitDisabled(Failures(v), isLoading)
  {
  }

  // ------------------------------------------------------------------ submit

  /** `!values.x?.trim()` is false for all three required fields. */
  predicate DetailsFilled(values: FormValues) {
    Trim(values.fullName) != "" && Trim(values.address) != "" && Trim(values.phone) != ""
  }

  /**
   * The form's `required` rules on the name, address and phone fields: each must be non-empty.
   * White space alone passes them.
   */
  predicate RequiredFilled(values: FormValues) {
    values.fullName != "" && values.address != "" && values.phone != ""
  }

  /**
   * Details that pass the handler's own trimmed check also pass the form's rules, but not
   * the other way round: a name of one space reaches `onSubmit` and is refused there.
   */
  lemma FilledDetailsPassRules(values: FormValues)
    ensures DetailsFilled(values) ==> RequiredFilled(values)
    ensures var spaced := values.(fullName := " ");
      RequiredFilled(values) ==> RequiredFilled(spaced) && !DetailsFilled(spaced)
  {
    var spaced := values.(fullName := " ");
    assert AllSpace(spaced.fullName);
  }

  const StockManyMessage := "Beberapa item stok tidak cukup"
  const StockInvalidMessage := "Stok tidak valid"
  const MissingDetailsMessage := "Nama, alamat, dan No HP wajib diisi."
  const CommitFailedMessage := "Gagal membuat pesanan. Stok mungkin berubah."

  /** `.length` read as a truth value. */
  predicate LengthTruthy(j: Json) {
    match j
    case JArr(es) => |es| > 0
    case JStr(s) => s != ""
    case JObj(_) => OptTruthy(Member(j, "length"))
    case _ => false
  }

  /** The message for a failed stock check. */
  function StockMessage(json: Json): (m: string)
    ensures m == StockManyMessage || m == StockInvalidMessage
    ensures FailedList(json).Some? ==> m == StockManyMessage
  {
    var f := Member(json, "failed");
    if Truthy(json) && OptTruthy(f) && LengthTruthy(f.value) then StockManyMessage else StockInvalidMessage
  }

  /** The message for a rejected commit: the server's `error`, else its `message`, else a default. */
  function CommitMessage(json: Json): (m: string)
    ensures !Truthy(json) ==> m == CommitFailedMessage
    ensures Truthy(json) && OptTruthy(Member(json, "error")) ==> m == ToJsString(Member(json, "error").value)
  {
    var e := Member(json, "error");
    var msg := Member(json, "message");
    if !Truthy(json) then CommitFailedMessage
    else if OptTruthy(e) then ToJsString(e.value)
    else if OptTruthy(msg) then ToJsString(msg.value)
    else CommitFailedMessage
  }

  datatype SubmitOutcome =
    | AlreadySubmitting
    | StockRejected(message: string)
    | MissingDetails
    | OrderRejected(message: string)
    | OrderPlaced

  /** How a submit ends, from the cart, the store id, the form and the two answers. */
  function SubmitResult(
    items: seq<CartItem>, storeId: Option<string>, values: FormValues, adminUrl: string,
    validateNet: (string, Json) -> Reply, commitNet: (string, Json) -> Reply): (o: SubmitOutcome)
    ensures o.StockRejected? <==> !Succeeded(ValidateStockRequest(ValidateBody(items, storeId), adminUrl, validateNet))
    ensures o.MissingDetails? <==>
      Succeeded(ValidateStockRequest(ValidateBody(items, storeId), adminUrl, validateNet)) && !DetailsFilled(values)
    ensures o.OrderPlaced? <==>
      Succeeded(ValidateStockRequest(ValidateBody(items, storeId), adminUrl, validateNet)) && DetailsFilled(values)
      && Succeeded(ValidateStockRequest(CommitBody(items, storeId, values), adminUrl, commitNet))
    ensures !o.AlreadySubmitting?
  {
    var v := ValidateStockRequest(ValidateBody(items, storeId), adminUrl, validateNet);
    if !Succeeded(v) then StockRejected(StockMessage(v.json))
    else if !DetailsFilled(values) then MissingDetails
    else
      var c := ValidateStockRequest(CommitBody(items, storeId, values), adminUrl, commitNet);
      if !Succeeded(c) then OrderRejected(CommitMessage(c.json)) else OrderPlaced
  }

  /**
   * The awaited steps of `onSubmit`: check the stock, then the details, then commit;
   * the first step that fails decides the outcome.
   */
  method DecideSubmit(
    items: seq<CartItem>, storeId: Option<string>, values: FormValues, adminUrl: string,
    validateNet: (string, Json) -> Reply, commitNet: (string, Json) -> Reply) returns (o: SubmitOutcome)
    ensures o == SubmitResult(items, storeId, values, adminUrl, validateNet, commitNet)
  {
    var v := ValidateStockRequest(ValidateBody(items, storeId), adminUrl, validateNet);
    if !Succeeded(v) {
      return StockRejected(StockMessage(v.json));
    }
    if !DetailsFilled(values) {
      return MissingDetails;
    }
    var c := ValidateStockRequest(CommitBody(items, storeId, values), adminUrl, commitNet);
    if !Succeeded(c) {
      return OrderRejected(CommitMessage(c.json));
    }
    return OrderPlaced;
  }

  /** A form with a blank name, address or phone never places an order, whatever the servers answer. */
  lemma BlankDetailsNeverOrder(
    items: seq<CartItem>, storeId: Option<string>, values: FormValues, adminUrl: string,
    validateNet: (string, Json) -> Reply, commitNet: (string, Json) -> Reply)
    requires Trim(values.fullName) == "" || Trim(values.address) == "" || Trim(values.phone) == ""
    ensures !SubmitResult(items, storeId, values, adminUrl, validateNet, commitNet).OrderPlaced?
  {
  }

  /**
   * The dialog's own state. The cart and the dialog's open/closed store are shared with
   * the rest of the page; `publicApi` and `adminUrl` are the configured addresses ("" when unset).
   */
  class CheckoutDialog {
    const cart: Cart
    const modal: CheckoutModalStore
    const publicApi: string
    const adminUrl: string
    var isLoading: bool
    var submitting: bool
    var failedItems: Option<seq<FailedItem>>
    var paymentOptions: Option<seq<MethodOption>>
    var shippingOptions: Option<seq<MethodOption>>
    var form: FormValues

    ghost predicate Valid()
      reads this, cart
    {
      cart.Valid()
    }

    constructor(cart: Cart, modal: CheckoutModalStore, publicApi: string, adminUrl: string)
      requires cart.Valid()
      ensures Valid()
      ensures this.cart == cart && this.modal == modal
      ensures this.publicApi == publicApi && this.adminUrl == adminUrl
      ensures !isLoading && !submitting && failedItems == None
      ensures paymentOptions == None && shippingOptions == None && form == EmptyForm
    {
      this.cart := cart;
      this.modal := modal;
      this.publicApi := publicApi;
      this.adminUrl := adminUrl;
      isLoading := false;
      submitting := false;
      failedItems := None;
      paymentOptions := None;
      shippingOptions := None;
      form := EmptyForm;
    }

    /**
     * The effect that runs when the dialog opens or closes or the cart changes: closed,
     * it forgets the failure list; open, it looks up the store's methods and checks the
     * cart's stock, returning the toast that check raises, if any.
     */
    method OnOpenEffect(get: string -> Reply, validateNet: (string, Json) -> Reply) returns (toast: Option<string>)
      modifies this`failedItems, this`paymentOptions, this`shippingOptions
      ensures !modal.isOpen ==> (failedItems == None && toast == None
        && paymentOptions == old(paymentOptions) && shippingOptions == old(shippingOptions))
      ensures modal.isOpen ==>
        var opts := OptionsFrom(StoreResponse(StoreIdOf(modal.data), publicApi, adminUrl, get));
        && paymentOptions == (if opts.0.Some? then opts.0 else old(paymentOptions))
        && shippingOptions == (if opts.1.Some? then opts.1 else old(shippingOptions))
      ensures modal.isOpen ==>
        var v := ValidateStockRequest(ValidateBody(cart.items, StoreIdOf(modal.data)), adminUrl, validateNet);
        && failedItems == (if Succeeded(v) then None else Failures(v))
        && toast == (if Succeeded(v) || Failures(v).None? then None else OpenToast(v, Failures(v).value))
      ensures isLoading == old(isLoading) && submitting == old(submitting) && form == old(form)
    {
      if !modal.isOpen {
        failedItems := None;
        toast := None;
        return;
      }
      var storeId := StoreIdOf(modal.data);
      var resp := FetchStoreSettings(storeId, publicApi, adminUrl, get);
      var opts := OptionsFrom(resp);
      if opts.0.Some? {
        paymentOptions := opts.0;
      }
      if opts.1.Some? {
        shippingOptions := opts.1;
      }
      failedItems, toast := CheckStock(cart.items, storeId, adminUrl, validateNet);
    }

    /** The effect on new options: fill each empty select with its default. */
    method ApplyDefaults()
      modifies this`form
      ensures form == old(form).(
        paymentMethod := DefaultValue(paymentOptions, old(form.paymentMethod)),
        shippingMethod := DefaultValue(shippingOptions, old(form.shippingMethod)))
      ensures isLoading == old(isLoading) && submitting == old(submitting) && failedItems == old(failedItems)
      ensures paymentOptions == old(paymentOptions) && shippingOptions == old(shippingOptions)
    {
      form := form.(paymentMethod := DefaultValue(paymentOptions, form.paymentMethod));
      form := form.(shippingMethod := DefaultValue(shippingOptions, form.shippingMethod));
    }

    /** The effect on closing: the form goes back to its empty values. */
    method ResetOnClose()
      modifies this`form
      ensures form == if modal.isOpen then old(form) else EmptyForm
      ensures isLoading == old(isLoading) && submitting == old(submitting) && failedItems == old(failedItems)
      ensures paymentOptions == old(paymentOptions) && shippingOptions == old(shippingOptions)
    {
      if !modal.isOpen {
        form := EmptyForm;
      }
    }

    /**
     * Submitting the form: the form's `required` rules hold `onSubmit` back while a required
     * field is empty; otherwise its synchronous start runs, where a second submit while one
     * is in flight does nothing.
     */
    method StartSubmit() returns (started: bool)
      modifies this`submitting, this`isLoading
      ensures started <==> RequiredFilled(form) && !old(submitting)
      ensures started ==> submitting && isLoading
      ensures !started ==> isLoading == old(isLoading) && submitting == old(submitting)
      ensures failedItems == old(failedItems) && form == old(form)
      ensures paymentOptions == old(paymentOptions) && shippingOptions == old(shippingOptions)
    {
      if !RequiredFilled(form) || submitting {
        return false;
      }
      submitting := true;
      isLoading := true;
      return true;
    }

    /**
     * The end of `onSubmit`, once `DecideSubmit` has settled the outcome: a placed order
     * empties the cart and closes the dialog; however it ended, the dialog is ready for
     * another submit.
     */
    method FinishSubmit(o: SubmitOutcome)
      requires Valid() && submitting
      modifies this`isLoading, this`submitting, cart, modal
      ensures Valid()
      ensures o.OrderPlaced? ==> cart.items == [] && !modal.isOpen
      ensures !o.OrderPlaced? ==> cart.items == old(cart.items) && modal.isOpen == old(modal.isOpen)
      ensures modal.data == old(modal.data)
      ensures !isLoading && !submitting
    {
      if o.OrderPlaced? {
        cart.Clear();
        modal.OnClose();
      }
      isLoading := false;
      submitting := false;
    }
  }
}
