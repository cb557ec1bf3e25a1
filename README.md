# Jajanan Subuh storefront — a Dafny model of the cart and checkout core

This project models the logic at the heart of the Jajanan Subuh online shop, a Next.js
storefront. It covers the cart, the checkout path and the small state machines around them.

The modelled parts are:

- **The cart store** (`CartProvider`). An ordered list of `{product, quantity}` lines with
  `add`, `remove`, `updateQty` and `clear`. It also has the startup load from a stored
  document and the save after every change.
- **The checkout proxy route** (`CheckoutRoute`). It turns the body's items into the shape the
  admin service expects, and picks the forward address from the configured base URL and the
  request's `host` / `x-forwarded-proto` headers. It merges the payload and passes the upstream
  status through.
- **The checkout dialog** (`CheckoutModal`) and its open/close store (`UseCheckoutModal`). This
  covers:
  - the item payload and request body;
  - the stock re-check with its single 404 retry against the admin service;
  - the ordered list of store-settings candidates;
  - the payment and shipping option mapping and the default choice;
  - the normalisation of a refused re-check into a non-empty list of failed items;
  - the submit sequence: the form's `required` rules, then a single submit in flight at a time.
- **Quantity controls and stock guards**:
  - `QtySelector`, `AddToCart`, `CartQuantityPanel` and `CartDrawer` clamp integers into their
    bounds and keep only digits from typed input;
  - `StockGuard`, shared by `ProductCard`, `Info` and `CartQuantityPanel`, refuses an add when
    stock is exhausted or the cart would exceed it.
- **Search and sort**:
  - `NavbarSearch`: the token filter, the cap of eight results, keyboard navigation, highlight
    tokens and the "see all" address;
  - `ProductSort`: the price, date, sales and name comparators, with their rule for items
    lacking a value, and the stable sort they drive.
- **The proxy routes for reviews and search** (`ReviewsRoute`, `SearchRoute`). Address
  construction, request validation and status mapping.
- **Small view state machines**:
  - `MainCarousel`: slide rotation;
  - `MobileMenu`: the open flag;
  - `MainNav`: the active link and the loading spinner;
  - `CartButton`: the quantity badge and hide-on-scroll.

Support modules hold the primitives these share:

- `Text`: `trim`, `toLowerCase`, splitting on white space, `Number`/`parseFloat`/`String` on
  integers, and `encodeURIComponent`;
- `Percent`: reading a query value back as `URLSearchParams` does (`+` as a space, percent
  escapes of UTF-8 bytes as characters), proved to undo both encoders in `Text`;
- `Urls`: the `http(s)` URL parser and serialiser, query parameters, and the store-id path
  shape;
- `Json`: JSON values;
- `Http`: replies and responses;
- `Types`: products and cart lines;
- `Wrappers`: `Option`/`Result`.

Code that changes state in place becomes a class whose methods state the whole new state.
Each view component's hooks become fields, and its handlers become methods. The pure
computations become functions, and lemmas relate them.

The network is never called. Every reply from `fetch` (its status, and its JSON or text
body, or a transport failure) is an input to the operation that would have awaited it. These
are also inputs:

- environment settings (`PUBLIC_API_URL`, the admin URL, `PORT`);
- request headers;
- the stored cart document;
- date parsing.

`src/hooks/use-cart.ts` is not part of this model. The cart is modelled by the provider's
own operations, which that hook exposes.

Two behaviours of the checkout route are easy to mistake:

- when the request has no `x-forwarded-proto` header, the checkout route's inferred scheme
  is `http` (src/app/api/checkout/route.ts:35);
- a relative base without the `/api/checkout` suffix, combined with a `host` header,
  forwards to `proto://host/api/checkout`. The base's own path is dropped
  (src/app/api/checkout/route.ts:66-75).

## Model

| member | source | states |
|---|---|---|
| UseCheckoutModal.OpenReplacesData | src/hooks/use-checkout-modal.tsx:22 | opening sets the dialog open with exactly the data given, whatever was there before |
| UseCheckoutModal.OpenCloseIdempotent | src/hooks/use-checkout-modal.tsx:22-23 | opening twice with the same data, or closing twice, is the same as doing it once |
| UseCheckoutModal.CloseKeepsData | src/hooks/use-checkout-modal.tsx:22-23 | closing after opening leaves the dialog shut but keeps the data it was opened with |
| UseCheckoutModal.CheckoutModalStore.constructor | src/hooks/use-checkout-modal.tsx:19-21 | the store starts closed with no data |
| UseCheckoutModal.CheckoutModalStore.OnOpen | src/hooks/use-checkout-modal.tsx:22 | `onOpen(d)`: open, data replaced by `d` (also when `d` is missing) |
| UseCheckoutModal.CheckoutModalStore.OnClose | src/hooks/use-checkout-modal.tsx:23 | `onClose()`: shut, data untouched |
| MainCarousel.Next | src/components/main-carousel.tsx:15 | the next index is always an image index; it is one more, except after the last image, where it is 0 |
| MainCarousel.NextWrap | src/components/main-carousel.tsx:15 | one tick from image `k mod n` reaches image `(k + 1) mod n` |
| MainCarousel.TicksFromFirst | src/components/main-carousel.tsx:10-16 | starting at image 0, after `k` ticks the carousel shows image `k mod n` |
| MainCarousel.EveryImageShown | src/components/main-carousel.tsx:10-16 | every image is shown within the first `n` ticks, and again `n` ticks later |
| MainCarousel.CarouselView.constructor | src/components/main-carousel.tsx:10-18 | the first render starts at image 0 and runs the timer only when there are images |
| MainCarousel.CarouselView.Tick | src/components/main-carousel.tsx:14-16 | a timer tick moves to `Next` and leaves the index in range |
| MainCarousel.CarouselView.SetImages | src/components/main-carousel.tsx:12-18 | a new image list restarts or stops the timer and keeps `current`, which is in range exactly when it is below the new count |
| MainCarousel.CarouselView.Render | src/components/main-carousel.tsx:20-35 | nothing without images; otherwise one entry per image, opaque exactly at `current` |
| MainCarousel.OneImageOpaque | src/components/main-carousel.tsx:24-32 | at most one image is opaque; the current one is when the index is in range, and none is after a shrink past it |
| MainCarousel.Wrap | src/components/main-carousel.tsx:15 | the remainder is an image index, and an index already in range is itself |
| MainNav.HrefInjective | src/components/main-nav.tsx:32 | two categories have the same link exactly when they have the same id |
| MainNav.Routes | src/components/main-nav.tsx:31-35 | one link per category, in order, to `/category/<id>`, labelled with its name, active exactly when it is the path shown |
| MainNav.AtMostOneActive | src/components/main-nav.tsx:34 | with distinct category ids, no two links are active at once |
| MainNav.SomeActiveIffCategoryPage | src/components/main-nav.tsx:34 | some link is active exactly when the path shown is the page of one of the categories |
| MainNav.PathEffect | src/components/main-nav.tsx:20-25 | a new path switches the loading flag off and is recorded; the same path changes nothing |
| MainNav.ClickAsWritten | src/components/main-nav.tsx:50-52 | a click switches the loading flag on whatever the link leads to |
| MainNav.ActiveLinkClickLeavesSpinnerOn | src/components/main-nav.tsx:20-25 | clicking the link of the page already shown leaves the flag on after the path effect has run, until a later change of path clears it |
| MainNav.Click | src/components/main-nav.tsx:50-52 | the corrected click: the flag goes on only for a link to another page, otherwise nothing changes |
| MainNav.ClickThenArrive | src/components/main-nav.tsx:20-25 | with the corrected click, arriving at the link's target leaves the flag as it was before the click |
| MainNav.LoadingStore.constructor | src/components/main-nav.tsx:17 | the shared loading flag starts off |
| MainNav.MainNavView.constructor | src/components/main-nav.tsx:15-18 | the first render records the initial path and is not mounted |
| MainNav.MainNavView.Mount | src/components/main-nav.tsx:27-29 | the mount effect sets `mounted` and nothing else |
| MainNav.MainNavView.OnPathname | src/components/main-nav.tsx:20-25 | the new path and the shared flag are what `PathEffect` gives |
| MainNav.MainNavView.OnRouteClick | src/components/main-nav.tsx:50-52 | the shared flag is what the corrected `Click` gives |
| MainNav.MainNavView.Bold | src/components/main-nav.tsx:43-48 | a link is drawn bold exactly when mounted and its page is the one shown |
| MobileMenu.MobileMenuView.constructor | src/components/mobile-menu.tsx:18-23 | the menu starts closed, with the prop and the initial path recorded |
| MobileMenu.MobileMenuView.Toggle | src/components/mobile-menu.tsx:32-34 | the button flips the menu open or shut |
| MobileMenu.MobileMenuView.OnPathname | src/components/mobile-menu.tsx:26-29 | a new path closes the menu; the same path leaves it as it is |
| MobileMenu.MobileMenuView.OnSearchToggle | src/components/mobile-menu.tsx:37-43 | an event whose `detail.open` is truthy closes the menu; any other event, a missing detail included, leaves it alone |
| MobileMenu.MobileMenuView.Render | src/components/mobile-menu.tsx:56-85 | `aria-expanded`, the label, the panel's `aria-hidden` and whether it receives clicks follow `isOpen`; the button is inert while the search is open |
| MobileMenu.ViewConsistent | src/components/mobile-menu.tsx:58-85 | the button reports the panel expanded exactly when the panel is not hidden, and then offers to close it |
| QtySelector.Clamp | src/components/ui/qty-selector.tsx:47-48 | the result never exceeds a given maximum and lies within consistent bounds; an in-range value is kept, a value at or above the maximum gives the maximum, and with consistent bounds a value at or below the minimum gives the minimum |
| QtySelector.Dec | src/components/ui/qty-selector.tsx:20-23 | the minus step is one less, but never below `min` |
| QtySelector.Inc | src/components/ui/qty-selector.tsx:25-29 | the plus step is one more, capped by a given `max` |
| QtySelector.TypedValue | src/components/ui/qty-selector.tsx:45-50 | a typed non-zero number within the bounds is taken as is; one at or above the maximum gives the maximum; one at or below the minimum gives the minimum; text that is not a number, or 0, gives `min`; the result lies within consistent bounds |
| QtySelector.ButtonsAgreeWithSteps | src/components/ui/qty-selector.tsx:38-59 | an enabled button moves the value by exactly one; a disabled one gives the bound |
| QtySelector.TypedValueOfPrinted | src/components/ui/qty-selector.tsx:44-50 | typing back the printed form of an in-range quantity gives that quantity |
| QtySelector.StepsStayInRange | src/components/ui/qty-selector.tsx:20-29 | both steps keep an in-range value in range |
| QtySelector.MinusDisabled | src/components/ui/qty-selector.tsx:38 | definition: the minus button is disabled at or below `min` (see `ButtonsAgreeWithSteps`) |
| QtySelector.PlusDisabled | src/components/ui/qty-selector.tsx:59 | definition: the plus button is disabled at or above a given `max` (see `ButtonsAgreeWithSteps`) |
| CartProvider.Ids | src/providers/cart-provider.tsx:45 | the product ids of the entries, one per entry, in cart order |
| CartProvider.FindIndex | src/providers/cart-provider.tsx:45 | finds an entry exactly when the id is in the cart, and then the first entry with that id |
| CartProvider.FindIndexOfIds | src/providers/cart-provider.tsx:45 | two carts with the same ids in the same order are searched alike |
| CartProvider.ExistingQuantity | src/components/ui/product-card.tsx:100-101 | the quantity already in the cart: 0 for a product that is not there, otherwise the quantity of an entry for it |
| CartProvider.TotalQuantityUpdate | src/providers/cart-provider.tsx:47-48 | changing one entry's quantity changes the cart's unit count by the difference |
| CartProvider.TotalQuantityAppend | src/providers/cart-provider.tsx:51 | the unit count of two lists joined is the sum of their counts |
| CartProvider.WithAdded | src/providers/cart-provider.tsx:43-53 | a product already there keeps its entries, snapshots and order and only its entry changes; a new product is appended; either way the unit count grows by `qty` |
| CartProvider.AddExistingQuantity | src/providers/cart-provider.tsx:43-53 | adding raises the quantity read back for that product by `qty` and for no other product |
| CartProvider.AddKeepsUnique | src/providers/cart-provider.tsx:43-53 | adding keeps the cart at one entry per product |
| CartProvider.WithoutId | src/providers/cart-provider.tsx:55-57 | removal keeps exactly the entries of other products, and no entry for the id is left |
| CartProvider.RemoveAbsent | src/providers/cart-provider.tsx:55-57 | removing an id that is not in the cart changes nothing |
| CartProvider.RemoveAppend | src/providers/cart-provider.tsx:56 | removal works entry by entry, so the kept entries stay in their order |
| CartProvider.RemoveTotal | src/providers/cart-provider.tsx:55-57 | in a cart with one entry per product, removal takes away exactly that product's units |
| CartProvider.ExistingQuantityLast | src/providers/cart-provider.tsx:55-57 | the units of an id are those of the earlier entries plus the last entry's when it is that id |
| CartProvider.WithQty | src/providers/cart-provider.tsx:61-67 | every entry for the id gets the quantity as given; every other entry, and the order, is kept |
| CartProvider.UpdateQtyEffect | src/providers/cart-provider.tsx:61-67 | afterwards a present product holds exactly the new quantity, an absent id changes nothing, and one entry per product is kept |
| CartProvider.Cart.constructor | src/providers/cart-provider.tsx:26-41 | mounting starts empty, takes a stored cart that reads back, and saves the result when storage works |
| CartProvider.Cart.Add | src/providers/cart-provider.tsx:43-53 | the cart becomes `WithAdded` of the old one and is saved |
| CartProvider.Cart.AddOne | src/providers/cart-provider.tsx:43 | `add(product)` adds one unit |
| CartProvider.Cart.Remove | src/providers/cart-provider.tsx:55-57 | the cart becomes `WithoutId` of the old one and is saved |
| CartProvider.Cart.Clear | src/providers/cart-provider.tsx:59 | the cart becomes empty and is saved |
| CartProvider.Cart.UpdateQty | src/providers/cart-provider.tsx:61-67 | the cart becomes `WithQty` of the old one and is saved |
| CartProvider.Cart.Save | src/providers/cart-provider.tsx:37-41 | the stored copy equals the cart when storage works; a failing storage is ignored |
| CartProvider.TotalQuantity | src/components/cart-button.tsx:16 | definition of the unit count, the sum of the quantities (see `TotalQuantityUpdate`, `TotalQuantityAppend`) |
| CartProvider.HasId | src/providers/cart-provider.tsx:45 | definition: some entry holds the product id; `FindIndex` finds an entry exactly when it holds |
| CartProvider.UniqueIds | src/providers/cart-provider.tsx:43-53 | definition: at most one entry per product id, the invariant `AddKeepsUnique` proves `add` keeps |
| SearchRoute.QueryOf | src/app/api/search/route.ts:5-15 | the query is the request's decoded `q` parameter (after the localhost fallback), or empty when there is none |
| SearchRoute.UpstreamUrl | src/app/api/search/route.ts:25-27 | the address asked is the base less one trailing slash, then `/products`, then exactly the search suffix |
| SearchRoute.SearchSuffix | src/app/api/search/route.ts:26 | the suffix is empty exactly for an empty query, and otherwise `?search=` followed by the encoded query |
| SearchRoute.SearchParamReadsBack | src/app/api/search/route.ts:26 | the public API reads the `search` parameter back as exactly the query |
| SearchRoute.SearchParamOf | src/app/api/search/route.ts:26 | a `search=` pair with no separator in its value is read back as that value, decoded |
| SearchRoute.UpstreamIgnoresTrailingSlash | src/app/api/search/route.ts:25 | a base written with or without its trailing slash asks the same address |
| SearchRoute.Get | src/app/api/search/route.ts:3-40 | 500 without a configured base and nothing asked; otherwise the products address is asked; a JSON answer is relayed with 200 exactly when the public API succeeded and 502 when not; a failed fetch answers 500 with its message or "unknown"; an answer that is not JSON makes reading it throw, so 500 with the exception's body |
| SearchRoute.MissingQueryListsAll | src/app/api/search/route.ts:15-27 | a request without `q` asks for the whole product list |
| SearchRoute.QueryOfEncoded | src/app/api/search/route.ts:14-15 | a request address whose query is `q=` and the `encodeURIComponent` form of a query gives back exactly that query, decoded |
| SearchRoute.QueryParamReadsBack | src/app/api/search/route.ts:15 | a `q` pair written with `encodeURIComponent` is read back as exactly the query |
| SearchRoute.EncodedParamReadsBack | src/app/api/search/route.ts:15 | any pair whose name needs no escaping and whose value went through `encodeURIComponent` is read back as that value |
| SearchRoute.GetForwardsQuery | src/app/api/search/route.ts:5-27 | a request whose query is `q=` and the encoded query asks the public API for exactly that query, encoded once |
| SearchRoute.CanonicalWithEncodedQuery | src/app/api/search/route.ts:14 | adding the encoded `q` pair keeps a canonical request address canonical |
| ReviewsRoute.AdminBase | src/app/api/reviews/route.ts:8-9 | the admin base is `ADMIN_API_URL` when set and non-empty, else `NEXT_PUBLIC_ADMIN_API_URL` when set and non-empty, else missing |
| ReviewsRoute.ReviewsEndpoint | src/app/api/reviews/route.ts:11-39 | the endpoint ends in `/api/reviews`, after the base with one trailing slash dropped |
| ReviewsRoute.EndpointIgnoresTrailingSlash | src/app/api/reviews/route.ts:11-13 | a base with or without its trailing slash names the same endpoint |
| ReviewsRoute.EndpointKeepsSecondSlash | src/app/api/reviews/route.ts:12 | only one slash is dropped: a base ending in two keeps one |
| ReviewsRoute.WithParam | src/app/api/reviews/route.ts:40 | setting the parameter keeps scheme, host and path and puts the form-encoded pair at the end of the query |
| ReviewsRoute.Relay | src/app/api/reviews/route.ts:43-98 | for a status a response may carry a body with, the admin status is kept and the body goes back as JSON (empty text as `null`) or as plain text when it is not JSON; for 204, 205 and 304, and for a failed fetch, the answer is 502 "admin unreachable" |
| ReviewsRoute.RelayKeepsEveryStatus | src/app/api/reviews/route.ts:43-54 | the browser sees the admin status exactly when a response may carry a body with it; a success other than 200 keeps its status where the checkout proxy says 200; a 204 becomes 502 where the checkout proxy says 200 |
| ReviewsRoute.Get | src/app/api/reviews/route.ts:27-56 | 503 without an admin base; otherwise the admin answer to the endpoint read is relayed, and a failed fetch answers 502; an admin base that does not parse throws (500) before any fetch (only http and https addresses parse in this model) |
| ReviewsRoute.GetForwardsProductId | src/app/api/reviews/route.ts:36-40 | the read carries the request's `productId` exactly when it is non-empty, and the admin service reads the same value back; the rest of the address is the endpoint |
| ReviewsRoute.ParamReadsBack | src/app/api/reviews/route.ts:40 | a pair written by `searchParams.set` is read back as the value given |
| ReviewsRoute.ProductIdReadsBack | src/app/api/reviews/route.ts:40 | the `productId` pair is read back as the value given |
| ReviewsRoute.ReviewPayload | src/app/api/reviews/route.ts:81-86 | the payload holds at most the four review members, each exactly as posted, and nothing else |
| ReviewsRoute.Post | src/app/api/reviews/route.ts:58-104 | 503 without a base; 400 "invalid" for a body that does not parse; 400 without a truthy `productId` and `name`; otherwise the payload is posted to the endpoint and the answer relayed |
| ReviewsRoute.PostDropsExtraMembers | src/app/api/reviews/route.ts:81-86 | a complete review is forwarded with exactly its review members, intact, and without anything else posted |
| ReviewsRoute.PostRefusesEmptyName | src/app/api/reviews/route.ts:69-74 | a review with an empty name is refused with 400 and nothing is posted |
| Http.BodyAllowed | src/app/api/reviews/route.ts:47-50 | definition: a response with a body can be built for a status from 200 to 599 other than 204, 205 and 304 (see `RelayKeepsEveryStatus`) |
| Http.ErrorResponse | src/app/api/checkout/route.ts:18-21 | definition of `NextResponse.json({ error }, { status })` |
| CheckoutRoute.NormalizeItem | src/app/api/checkout/route.ts:10-14 | an item is normalised unless it is `null`, on which reading a member throws |
| CheckoutRoute.NormalizeItemSpec | src/app/api/checkout/route.ts:10-14 | the id is trimmed text; the name is kept, trimmed, exactly when it is a string; the quantity is the item's number or 0 |
| CheckoutRoute.NormalizeItems | src/app/api/checkout/route.ts:10-14 | every item is normalised in order, and the whole list fails exactly when one item is `null` |
| CheckoutRoute.NormalizeWellFormedItem | src/app/api/checkout/route.ts:10-14 | an item with a string id and name and a non-zero numeric quantity is forwarded with id and name trimmed and the quantity kept |
| CheckoutRoute.NormalizeTrimmedItem | src/app/api/checkout/route.ts:10-14 | an item whose id and name are already trimmed, with a non-zero numeric quantity, is forwarded unchanged |
| CheckoutRoute.NormalizeOddItem | src/app/api/checkout/route.ts:12-13 | a quantity that is not a number becomes 0 and a name that is not a string is dropped |
| CheckoutRoute.ItemsJson | src/app/api/checkout/route.ts:97-101 | the forwarded items are written as a JSON array of the same length |
| CheckoutRoute.AbsoluteCheckoutBase | src/app/api/checkout/route.ts:39-47 | an absolute base whose path already ends in `/api/checkout` (in any case) is used as it is, less one trailing slash |
| CheckoutRoute.AbsoluteBaseUsesOrigin | src/app/api/checkout/route.ts:48-54 | any other absolute base loses its path: the store-id branch and the generic branch both give the origin plus `/api/checkout`, whatever the headers |
| CheckoutRoute.RelativeCheckoutBase | src/app/api/checkout/route.ts:59-65 | a relative base ending in `/api/checkout` is used verbatim, behind `proto://host` when a host header is present |
| CheckoutRoute.RelativeOtherBase | src/app/api/checkout/route.ts:66-76 | any other relative base becomes the host's checkout endpoint over `http` unless the proto header says otherwise; without a host it is `/api/checkout` for a store-id-like base and the base plus `/api/checkout` otherwise |
| CheckoutRoute.UnparseableBase | src/app/api/checkout/route.ts:79-86 | an absolute-looking base that does not parse takes the fallback, the base plus `/api/checkout` |
| CheckoutRoute.Payload | src/app/api/checkout/route.ts:97 | the payload holds the normalised `items`; every other member is one that spreading the posted body copies, with its value: an object's members, an array's elements under `"0"`, `"1"`, …, a string's characters likewise |
| CheckoutRoute.WithItems | src/app/api/checkout/route.ts:97 | the spread members with `items` added last: `items` is the normalised list and every other member is kept as it was |
| CheckoutRoute.PayloadOfArrayBody | src/app/api/checkout/route.ts:97 | a posted array `[x, y]` is forwarded as `{"0": x, "1": y, "items": []}` |
| CheckoutRoute.ListedItems | src/app/api/checkout/route.ts:8 | a posted object whose `items` member is a list yields that list as the raw items |
| CheckoutRoute.ForwardUrl | src/app/api/checkout/route.ts:30-86 | definition of the forwarding address; its cases are stated by the `AbsoluteCheckoutBase` … `UnparseableBase` rows |
| Json.Spread | src/app/api/checkout/route.ts:97 | `{...v}` copies an object's own members, an array's elements and a string's characters under their decimal indices and nothing else, and nothing from `null`, booleans or numbers |
| Json.IndexMap | src/app/api/checkout/route.ts:97 | each element of a sequence sits under the decimal name of its index |
| Json.IndexMapKeys | src/app/api/checkout/route.ts:97 | spreading a sequence adds no member besides the names of its indices |
| Json.LastIndexKeyIsNew | src/app/api/checkout/route.ts:97 | the name of an index differs from the names of all earlier indices, so no element overwrites another |
| Json.SpreadOfFalsy | src/app/api/checkout/route.ts:97 | the posted body, or `{}` when it is falsy, spreads the same members as the body itself: a falsy value spreads nothing |
| CheckoutRoute.ItemsRaw | src/app/api/checkout/route.ts:8 | the posted `items` when present and truthy, otherwise an empty list |
| CheckoutRoute.Post | src/app/api/checkout/route.ts:5-116 | an unreadable body is 500 with its error; a forward only happens with a configured base and a readable item list, to `ForwardUrl` of the trimmed base, carrying the posted members with the normalised items; the answer is then the upstream reply passed through; nothing forwarded means 500 |
| CheckoutRoute.PassThrough | src/app/api/checkout/route.ts:104-111 | a failure keeps its status and body, a success becomes 200, a body that is not JSON becomes `{}`, a failed fetch becomes 500 with its error, and a failure status that may not carry a body (304) becomes 500 |
| CheckoutRoute.MissingBaseForwardsNothing | src/app/api/checkout/route.ts:16-21 | without a configured base nothing is forwarded and the answer is the configuration error |
| CheckoutRoute.PayloadKeepsFlags | src/app/api/checkout/route.ts:95-97 | flags posted beside the items, such as `validateOnly`, reach the admin service unchanged next to the normalised items, an empty item list included (an empty array is truthy) |
| StockGuard.Check | src/components/info.tsx:42-57 | "sold out" exactly when a stock is given and is at most 0; "not enough" exactly when it is positive and the cart would then hold more than it; otherwise accepted, within the stock |
| StockGuard.GuardedAdd | src/components/info.tsx:42-57 | a refused add leaves the cart as it was (an accepted one is `add`) |
| StockGuard.UnboundedAccepts | src/components/ui/cart-quantity-panel.tsx:56-67 | without a stock bound every add is accepted |
| StockGuard.GuardKeepsCartWithinStock | src/components/info.tsx:42-57 | a guarded add never takes the product's cart quantity above the stock, raises it by exactly `qty` when accepted, and leaves every other product alone |
| Info.Available | src/components/info.tsx:43 | the stock is `quantity`, else `stock`, else 0 |
| Info.Label | src/components/info.tsx:75-81 | "Habis" exactly at or below 0, "Stok rendah" exactly from 1 to 5, no label above 5 |
| Info.AsWrittenPanelRefusesStockOnlyProduct | src/components/info.tsx:112-118 | for a product with only a positive `stock`, the page shows units in stock, but the panel as written refuses every add as sold out |
| Info.StockOnlyExample | src/components/info.tsx:115 | a product without `quantity` and with `stock` 5 is labelled low stock, yet adding one unit is refused |
| Info.PanelAgreesWithPage | src/components/info.tsx:112-118 | with the corrected bound, the panel refuses as sold out exactly when the page says "Habis", and its check agrees with the page's own |
| Info.ProductInfo.constructor | src/components/info.tsx:112-118 | the panel starts at 1, for this product, bounded by the corrected stock |
| Info.ProductInfo.OnAdd | src/components/info.tsx:42-57 | the verdict is the stock check against `quantity ?? stock ?? 0`, and the cart becomes the guarded add |
| Info.ProductInfo.ClickAdd | src/components/info.tsx:112-118 | the panel's check and then the page's add leave the cart as one guarded add does, within the stock if it started within it |
| Info.PanelMaxAsWritten | src/components/info.tsx:115 | definition of the panel's stock as written, `quantity ?? 0` (see `AsWrittenPanelRefusesStockOnlyProduct`) |
| Info.PanelMax | src/components/info.tsx:115 | definition of the corrected panel stock, the same stock the page shows and checks (see `PanelAgreesWithPage`) |
| ProductCard.ControlBoundsMatchGuard | src/components/ui/product-card.tsx:94-207 | any quantity the card's control can hold passes the stock check for an in-stock product not yet in the cart; a product without stock refuses every add |
| ProductCard.ProductCardView.constructor | src/components/ui/product-card.tsx:202-208 | the control starts at 1, bounded by `[1, quantity ?? 0]`, and the drawer is taken as closed |
| ProductCard.ProductCardView.OnAddToCart | src/components/ui/product-card.tsx:86-108 | the verdict is the stock check against `quantity ?? 0` with the control's quantity, and the cart becomes the guarded add |
| ProductCard.ProductCardView.ClickAdd | src/components/ui/product-card.tsx:86-108 | the card's add, then the control collapses; the cart stays within the stock if it started within it |
| ProductCard.ProductCardView.OnDrawerToggle | src/components/ui/product-card.tsx:134-211 | a truthy detail sets the drawer flag to its `open` member, a missing detail is ignored; a drawer opening over the shown control unmounts it, so it returns collapsed and untouched with only the card's quantity kept |
| ProductCard.CardStock | src/components/ui/product-card.tsx:94 | definition of the card's stock, `quantity ?? 0` (see `ControlBoundsMatchGuard`) |
| ProductCard.ProductCardView.ControlVisible | src/components/ui/product-card.tsx:199 | definition: the control is hidden while the cart drawer is open |
| CartButton.Badge | src/components/cart-button.tsx:197-201 | the badge is shown exactly when the summed quantity is positive, and then shows that sum |
| CartButton.TotalAtLeastEntries | src/components/cart-button.tsx:16 | with at least one unit per entry, the summed quantity is at least the number of entries |
| CartButton.BadgeIffNonEmpty | src/components/cart-button.tsx:197-201 | for a cart whose entries each hold a unit or more, the badge shows exactly when the cart is not empty |
| CartButton.CartButtonView.constructor | src/components/cart-button.tsx:6-20 | starts unmounted, not scrolling down, visible, remembering the current scroll position |
| CartButton.CartButtonView.Mount | src/components/cart-button.tsx:25-27 | marks the button mounted and changes nothing else |
| CartButton.CartButtonView.OnScroll | src/components/cart-button.tsx:53-60 | the direction flag becomes "moved down past 20", written only when it changes; the position is remembered |
| CartButton.CartButtonView.OnControlToggle | src/components/cart-button.tsx:31-47 | with a truthy detail, a rendered button and `autoHide`, the button is hidden exactly when `detail.open` is truthy; otherwise nothing changes |
| CartButton.CartButtonView.Render | src/components/cart-button.tsx:158-203 | a placeholder before mount; afterwards the button carrying the badge and the hidden flag |
| CartQuantityPanel.SyncedInput | src/components/ui/cart-quantity-panel.tsx:36-42 | the field is the empty placeholder exactly while untouched at the initial quantity; otherwise its text reads back as the quantity |
| CartQuantityPanel.QuantityPanel.constructor | src/components/ui/cart-quantity-panel.tsx:17-28 | `initial` defaults to 1 and the quantity starts there, with no field text and nothing typed |
| CartQuantityPanel.QuantityPanel.AfterRender | src/components/ui/cart-quantity-panel.tsx:36-42 | the field is re-synced only when the quantity, the initial value or the typed mark changed since the last run |
| CartQuantityPanel.QuantityPanel.Dec | src/components/ui/cart-quantity-panel.tsx:31 | one less, never below 1 |
| CartQuantityPanel.QuantityPanel.Inc | src/components/ui/cart-quantity-panel.tsx:32-33 | one more, never above a known stock |
| CartQuantityPanel.QuantityPanel.OnInput | src/components/ui/cart-quantity-panel.tsx:99-108 | the field keeps only the digits and is marked typed; a non-empty entry sets the quantity into `[1, max]` |
| CartQuantityPanel.QuantityPanel.OnBlur | src/components/ui/cart-quantity-panel.tsx:115-125 | an empty field drops the typed mark and keeps the quantity; other text is re-read into `[1, max]` |
| CartQuantityPanel.QuantityPanel.HandleAdd | src/components/ui/cart-quantity-panel.tsx:55-75 | the stock check against the cart's quantity of this product; the quantity goes to `onAdd` exactly when it passes; loading ends |
| CartQuantityPanel.QuantityPanel.OnEnter | src/components/ui/cart-quantity-panel.tsx:109-114 | the blur runs, leaving the same quantity, typed mark, field text and sync record as `OnBlur`; then the add checks the quantity the handler was rendered with, and loading is over |
| AddToCart.SyncedInput | src/components/ui/add-to-cart.tsx:54-65 | no field text while collapsed; when expanded, the empty placeholder exactly while the value is the minimum and nothing was typed, otherwise text that reads back as the value |
| AddToCart.TypedChange | src/components/ui/add-to-cart.tsx:164-174 | typed text with no digit changes nothing; otherwise the new value is the typed value of the digits: the number itself within the bounds, the maximum at or above it, `min` for 0 |
| AddToCart.TypedChangeOfPrinted | src/components/ui/add-to-cart.tsx:164-174 | typing the decimal text of an in-range quantity selects exactly that quantity |
| AddToCart.NonDigitsIgnored | src/components/ui/add-to-cart.tsx:166-169 | text without a digit leaves the value alone |
| AddToCart.DigitsOnlyKeepsDigits | src/components/ui/add-to-cart.tsx:166 | stripping non-digits leaves something only if the text held a digit |
| AddToCart.AddToCartControl.constructor | src/components/ui/add-to-cart.tsx:17-31 | `min` defaults to 1; the control starts collapsed, untouched and unclicked |
| AddToCart.AddToCartControl.AfterRender | src/components/ui/add-to-cart.tsx:54-65 | the field is re-synced only when one of the effect's dependencies changed |
| AddToCart.AddToCartControl.Dec | src/components/ui/add-to-cart.tsx:78-84 | one less but not below `min`, shown in the field and marked typed; the bounds are kept |
| AddToCart.AddToCartControl.Inc | src/components/ui/add-to-cart.tsx:86-95 | one more but not above a given `max`, shown in the field and marked typed; the bounds are kept |
| AddToCart.AddToCartControl.OnInput | src/components/ui/add-to-cart.tsx:164-174 | the field keeps only digits and is marked typed; a non-empty entry sets the value within the bounds |
| AddToCart.AddToCartControl.OnBlur | src/components/ui/add-to-cart.tsx:175-187 | an empty field drops the typed mark and keeps the value; other text is re-read within the bounds |
| AddToCart.AddToCartControl.ToggleExpand | src/components/ui/add-to-cart.tsx:116-129 | flips between collapsed and expanded and changes nothing else |
| AddToCart.AddToCartControl.PressOutside | src/components/ui/add-to-cart.tsx:33-52 | a press outside leaves the control collapsed |
| AddToCart.AddToCartControl.HandleAdd | src/components/ui/add-to-cart.tsx:97-114 | after `onAdd`, the click is marked and the control collapses |
| AddToCart.AddToCartControl.ClickTimerFires | src/components/ui/add-to-cart.tsx:112 | the half-second timer clears the click mark |
| AddToCart.AddToCartControl.Remount | src/components/ui/add-to-cart.tsx:26-31 | a fresh mount starts collapsed, with no field text, no typed mark, no click mark and the sync effect due, keeping the parent's value |
| CartDrawer.PriceValue | src/components/cart-drawer.tsx:141 | a missing price or one that is not a number counts as 0; otherwise the number |
| CartDrawer.TotalAppend | src/components/cart-drawer.tsx:140-143 | the total of two carts laid end to end is the sum of their totals |
| CartDrawer.TotalUpdate | src/components/cart-drawer.tsx:140-143 | changing one entry's quantity changes the total by the difference of that entry's shares |
| CartDrawer.LineTotalUpdate | src/components/cart-drawer.tsx:141 | an entry's share moves by its price for each unit added or taken away |
| CartDrawer.WithQtyIsUpdate | src/components/cart-drawer.tsx:202-205 | with one entry per product, the quantity edit updates exactly that product's entry |
| CartDrawer.TotalAfterEdit | src/components/cart-drawer.tsx:140-205 | editing a product's quantity moves the total by its price times the change; an absent id leaves it alone |
| CartDrawer.TotalAfterRemove | src/components/cart-drawer.tsx:140-210 | removing a product takes exactly its entries' value out of the total |
| CartDrawer.EditedQuantity | src/components/cart-drawer.tsx:204 | the quantity box stores the typed number when it is at least 1, and 1 otherwise |
| CartDrawer.EditedPrinted | src/components/cart-drawer.tsx:204 | typing the decimal text of a positive quantity stores that quantity |
| CartDrawer.EditKeepsPositive | src/components/cart-drawer.tsx:201-205 | quantity edits keep every entry at one unit or more |
| CartDrawer.CheckoutDataFor | src/components/cart-drawer.tsx:236-240 | the dialog is told a store exactly when the first entry has a non-empty store id, and then that id |
| CartDrawer.DrawerPassesStore | src/components/cart-drawer.tsx:236-240 | the dialog's store id is usable exactly when the first entry's is, and then they are equal |
| CartDrawer.CartDrawerView.constructor | src/components/cart-drawer.tsx:11-12 | the drawer views the shared cart and the shared dialog state |
| CartDrawer.CartDrawerView.HeaderCount | src/components/cart-drawer.tsx:156 | the header counts entries (one per product), not units |
| CartDrawer.CartDrawerView.OnQuantityEdit | src/components/cart-drawer.tsx:201-205 | the cart becomes `updateQty` with the edited quantity; entries stay at one unit or more |
| CartDrawer.CartDrawerView.OnRemove | src/components/cart-drawer.tsx:210 | the cart becomes `remove`, and the shown total drops by the product's value |
| CartDrawer.CartDrawerView.OnClear | src/components/cart-drawer.tsx:159 | the cart is emptied; the header count and the total become 0 |
| CartDrawer.CartDrawerView.OnCheckout | src/components/cart-drawer.tsx:234-241 | the dialog opens with the first entry's store, if any |
| CartDrawer.Total | src/components/cart-drawer.tsx:140-143 | definition of the total, summed from the first entry; its meaning is stated by `TotalAppend`, `TotalUpdate` and `TotalAfterEdit` |
| CartDrawer.LineTotal | src/components/cart-drawer.tsx:141 | definition of one entry's share, its price times its quantity (see `LineTotalUpdate`) |
| CartDrawer.CartDrawerView.ShownTotal | src/components/cart-drawer.tsx:230 | definition: the total shown is `Total` of the shared cart (see `OnRemove`, `OnClear`) |
| ProductSort.StripPrice | src/components/product-list-with-sort.tsx:34 | keeps only digits, dots and minus signs, and leaves text made only of them unchanged |
| ProductSort.ParsePrice | src/components/product-list-with-sort.tsx:30-39 | a missing or empty price is 0; otherwise the leading number of the stripped text, or 0 when there is none |
| ProductSort.PriceIgnoresDecoration | src/components/product-list-with-sort.tsx:30-39 | currency symbols and separators in front of a plain amount do not change the parsed price |
| ProductSort.StripPriceAppend | src/components/product-list-with-sort.tsx:34 | stripping distributes over concatenation |
| ProductSort.NoPriceChars | src/components/product-list-with-sort.tsx:34 | text with no price character strips to nothing |
| ProductSort.FirstValue | src/components/product-list-with-sort.tsx:102-119 | the first candidate member that yields a value wins; none yields one exactly when every candidate fails |
| ProductSort.SoldPrefersSold | src/components/product-list-with-sort.tsx:104-112 | a numeric `sold` member is the sales count whatever the other members hold |
| ProductSort.NoSalesMembers | src/components/product-list-with-sort.tsx:102-119 | a product with none of the five sales members has no sales count |
| ProductSort.StrCompare | src/components/product-list-with-sort.tsx:60-61 | a three-way result that is 0 exactly for equal names |
| ProductSort.StrCompareFlip | src/components/product-list-with-sort.tsx:60-61 | swapping the names flips the result |
| ProductSort.StrCompareTrans | src/components/product-list-with-sort.tsx:60-61 | the name order is transitive |
| ProductSort.CompareFlip | src/components/product-list-with-sort.tsx:50-128 | every field's comparator, in either direction, is antisymmetric |
| ProductSort.CompareTrans | src/components/product-list-with-sort.tsx:50-128 | every field's comparator, in either direction, is transitive |
| ProductSort.ComparatorOf | src/components/product-list-with-sort.tsx:50-128 | the comparator handed to `copy.sort` agrees with `Compare` on every pair |
| ProductSort.ComparatorIsPreorder | src/components/product-list-with-sort.tsx:50-128 | every field's comparator, in either direction, is antisymmetric and transitive |
| ProductSort.Insert | src/components/product-list-with-sort.tsx:52-128 | inserting adds exactly the one product to the list's multiset |
| ProductSort.InsertSorted | src/components/product-list-with-sort.tsx:52-128 | inserting into a sorted list keeps it sorted |
| ProductSort.ConsSorted | src/components/product-list-with-sort.tsx:52-128 | a product not above any element of a sorted list can go in front of it |
| ProductSort.InsertElements | src/components/product-list-with-sort.tsx:52-128 | inserting brings in no product other than the inserted one |
| ProductSort.InsertTieAppends | src/components/product-list-with-sort.tsx:52-128 | a product that nothing compares above goes at the end, so ties keep their order |
| ProductSort.Sort | src/components/product-list-with-sort.tsx:48-128 | the sorted copy is a permutation of the list and is in comparator order |
| ProductSort.SortedItems | src/components/product-list-with-sort.tsx:45-131 | a permutation of the list; the default keeps the list's order, every other field gives comparator order; for every product, the products tying with it keep their order |
| ProductSort.SortOfSorted | src/components/product-list-with-sort.tsx:48-128 | a list already in order comes back unchanged (stability) |
| ProductSort.SortedSplit | src/components/product-list-with-sort.tsx:48-128 | a sorted list without its last product is sorted, and that product is not below any other |
| ProductSort.SortedTail | src/components/product-list-with-sort.tsx:48-128 | a sorted list without its first product is sorted |
| ProductSort.Ties | src/components/product-list-with-sort.tsx:48-128 | the products tying with a given one, in list order, are never more than the list |
| ProductSort.TiesMembers | src/components/product-list-with-sort.tsx:48-128 | every product in the ties of `x` is in the list and ties with `x` |
| ProductSort.TiesAppend | src/components/product-list-with-sort.tsx:48-128 | the ties of a concatenation are the ties of each part, in order |
| ProductSort.NoTies | src/components/product-list-with-sort.tsx:48-128 | a list none of whose products ties with `x` has no ties with it |
| ProductSort.BelowHeadTiesNothing | src/components/product-list-with-sort.tsx:48-128 | a product strictly below the head of a sorted list ties with nothing in it |
| ProductSort.InsertTies | src/components/product-list-with-sort.tsx:48-128 | inserting into a sorted list puts the new product after every product it ties with |
| ProductSort.TiesConsStep | src/components/product-list-with-sort.tsx:48-128 | a product put in front of two lists with equal ties keeps them equal |
| ProductSort.SortStable | src/components/product-list-with-sort.tsx:48-128 | the sort is stable: for every product, the products tying with it come out in the order they went in |
| ProductSort.StableResultUnique | src/components/product-list-with-sort.tsx:48-128 | two sorted lists with the same products and the same order among every product's ties are equal |
| ProductSort.SameHead | src/components/product-list-with-sort.tsx:48-128 | two such lists start with the same product |
| ProductSort.TiesHead | src/components/product-list-with-sort.tsx:48-128 | a list whose head ties with `x` has that head first among its ties |
| ProductSort.SameTailTies | src/components/product-list-with-sort.tsx:48-128 | dropping the same first product from both lists keeps every product's ties equal |
| ProductSort.StableSortIsSort | src/components/product-list-with-sort.tsx:48-128 | whatever stable sort the engine runs, its result is `Sort`'s |
| ProductSort.SortIdempotent | src/components/product-list-with-sort.tsx:45-131 | sorting the sorted list again changes nothing |
| ProductSort.TiesKeepOrder | src/components/product-list-with-sort.tsx:45-131 | products that all compare equal keep the order they arrived in |
| ProductSort.BelowComesFirst | src/components/product-list-with-sort.tsx:48-128 | in the sorted list a product that compares strictly below another stands before it |
| ProductSort.MissingSalesPlacement | src/components/product-list-with-sort.tsx:121-128 | for `terlaris`, products without a sales count come after counted ones ascending and before them descending |
| ProductSort.MissingDatePlacement | src/components/product-list-with-sort.tsx:90-99 | for `terbaru`, undated products come after dated ones ascending and before them descending |
| ProductSort.SalesOrder | src/components/product-list-with-sort.tsx:121-128 | counted products are ordered by count in the chosen direction |
| ProductSort.PriceOrder | src/components/product-list-with-sort.tsx:51-56 | `harga` orders by parsed price, cheapest first ascending and dearest first descending |
| ProductSort.PressDirection | src/components/product-list-with-sort.tsx:160-191 | the direction buttons change the direction only for the four sortable fields, and never the field |
| ProductSort.SelectField | src/components/product-list-with-sort.tsx:145 | choosing a field keeps the direction |
| ProductSort.CanToggleIffSorting | src/components/product-list-with-sort.tsx:162-166 | the toggleable fields are exactly the ones that sort |
| ProductSort.FieldOf | src/components/product-list-with-sort.tsx:50-130 | definition: the four sortable field names select their comparator and any other value the default order |
| ProductSort.Compare | src/components/product-list-with-sort.tsx:50-128 | definition of each field's comparator; `CompareFlip`, `CompareTrans` and `ComparatorIsPreorder` state its properties |
| ProductSort.OptCompare | src/components/product-list-with-sort.tsx:90-99 | definition: two missing values tie; a missing value goes after a present one ascending and before it descending; otherwise the difference |
| ProductSort.SoldValue | src/components/product-list-with-sort.tsx:111-117 | definition: a number is taken as is and a string as far as `parseFloat` reads it; anything else gives nothing |
| ProductSort.CreatedValue | src/components/product-list-with-sort.tsx:75-86 | definition: a number within the range of a date, or a string the date parser reads |
| ProductSort.CanToggle | src/components/product-list-with-sort.tsx:162-166 | definition: the direction buttons act for `harga`, `nama`, `terbaru` and `terlaris` only (see `CanToggleIffSorting`) |
| NavbarSearch.Tokens | src/components/navbar-search.tsx:128-129 | the query's tokens are non-empty and hold no white space; the query written as words joined by single spaces gives exactly those words, lower-cased |
| NavbarSearch.TokensOfUnwords | src/components/navbar-search.tsx:128-129 | words joined by single spaces tokenise back to the same words, lower-cased |
| NavbarSearch.FilterMembers | src/components/navbar-search.tsx:130-136 | a product survives the filter exactly when it was in the answer and its name contains every token |
| NavbarSearch.FilterAppend | src/components/navbar-search.tsx:131-135 | the filter works product by product, so it keeps the server's order |
| NavbarSearch.FilterNoTokens | src/components/navbar-search.tsx:130-136 | with no tokens every product is kept, so the two branches of the filter agree |
| NavbarSearch.SearchResults | src/components/navbar-search.tsx:126-137 | at most eight products are shown |
| NavbarSearch.SearchResultsPrefix | src/components/navbar-search.tsx:126-137 | the results are the first eight, or fewer, of the filtered answer, in order |
| NavbarSearch.ReplyShown | src/components/navbar-search.tsx:122-143 | a reply that arrived puts its (at most eight) results on show; a failed one puts none |
| NavbarSearch.ResultsMatch | src/components/navbar-search.tsx:126-137 | every product shown came in an array answer and its name contains every token of the query |
| NavbarSearch.BlankQueryKeepsAnswer | src/components/navbar-search.tsx:126-137 | a blank query shows the first eight products of the answer unfiltered |
| NavbarSearch.FewMatchesAllShown | src/components/navbar-search.tsx:126-137 | when eight or fewer products match, every matching product is shown |
| NavbarSearch.ShortFilterShownWhole | src/components/navbar-search.tsx:126-137 | eight or fewer matches are shown whole |
| NavbarSearch.Down | src/components/navbar-search.tsx:273-275 | arrow-down moves one result down, stopping at the last |
| NavbarSearch.Up | src/components/navbar-search.tsx:276-278 | arrow-up moves one result up, stopping at the first |
| NavbarSearch.KeysStayInRange | src/components/navbar-search.tsx:273-278 | arrow keys keep the selection on the list (or at -1 for an empty one); arrow-up with nothing selected selects index 0 |
| NavbarSearch.EnterTarget | src/components/navbar-search.tsx:279-284 | Enter opens a product exactly when the selection is an existing, truthy result, and then that product's page |
| NavbarSearch.UpOnEmptyIsHarmless | src/components/navbar-search.tsx:276-284 | arrow-up on an empty list selects index 0, but Enter then opens nothing |
| NavbarSearch.EscapeRegex | src/components/navbar-search.tsx:185 | escaping never shortens a token and leaves one without special characters unchanged |
| NavbarSearch.UnescapeEscape | src/components/navbar-search.tsx:185-189 | reading an escaped token back gives the token: every token is matched literally |
| NavbarSearch.LongOnly | src/components/navbar-search.tsx:187 | keeps exactly the patterns of two or more characters |
| NavbarSearch.HighlightTokens | src/components/navbar-search.tsx:179-189 | no highlighting exactly when it is switched off, the query is empty or no pattern of two characters is left; every pattern has two or more characters, and every word of the query whose escaped form has two or more is a pattern |
| NavbarSearch.HighlightPatternsAreWords | src/components/navbar-search.tsx:181-187 | every pattern read back is one of the query's words |
| NavbarSearch.SpecialCharacterHighlighted | src/components/navbar-search.tsx:185-187 | a query of one special character is highlighted, since the length test counts the escaped pattern |
| NavbarSearch.OrdinaryCharacterNotHighlighted | src/components/navbar-search.tsx:186-188 | a query of one ordinary character is not highlighted |
| NavbarSearch.SingleCharacterPatterns | src/components/navbar-search.tsx:181-188 | the patterns of a one-character query are its escaped form when that has two characters, else none |
| NavbarSearch.EscapeSingle | src/components/navbar-search.tsx:185 | one character escapes to two exactly when it is special |
| NavbarSearch.SeeAllQuery | src/components/navbar-search.tsx:430-432 | the query is the trimmed query, else the trimmed debounced query; it is empty exactly when both are blank |
| NavbarSearch.SeeAllTarget | src/components/navbar-search.tsx:429-448 | no navigation exactly when both queries are blank; otherwise the home page with `q`, `icons` and `highlight` |
| NavbarSearch.SplitThree | src/components/navbar-search.tsx:443-448 | three pairs without `&` split back into those three pairs |
| NavbarSearch.ReadThree | src/components/navbar-search.tsx:443-448 | a query of three pairs with distinct plain names gives each value back, decoded, under its name |
| NavbarSearch.FirstValueStep | src/components/navbar-search.tsx:443-448 | the first pair answers, decoded, for its own decoded name and passes every other name on |
| NavbarSearch.NoSeparatorInPair | src/components/navbar-search.tsx:443-448 | a pair built from parts without `&` holds no `&` |
| NavbarSearch.SeeAllParamsReadBack | src/components/navbar-search.tsx:443-448 | the home page reads back the query itself and both preference flags from the link |
| NavbarSearch.SearchBox.constructor | src/components/navbar-search.tsx:34-44 | closed, empty, nothing selected, both preferences on |
| NavbarSearch.SearchBox.Close | src/components/navbar-search.tsx:92-98 | closing clears the query, the results and the selection and keeps the preferences |
| NavbarSearch.SearchBox.Open | src/components/navbar-search.tsx:227-229 | opens the search and changes nothing else |
| NavbarSearch.SearchBox.OnQueryChange | src/components/navbar-search.tsx:268-271 | takes the text and drops the selection |
| NavbarSearch.SearchBox.DebounceFires | src/components/navbar-search.tsx:20-28 | a timer firing with the query already debounced changes nothing (the setter bails out and the effect does not run); otherwise the debounced query catches up, an empty one clears results and selection, any other starts a search |
| NavbarSearch.SearchBox.OnSearchReply | src/components/navbar-search.tsx:124-147 | a reply for a query no longer current changes nothing; otherwise its results are shown with no selection, or the results are cleared on failure, and the search ends |
| NavbarSearch.SearchBox.OnKey | src/components/navbar-search.tsx:272-290 | arrow keys move the selection; Enter on a selected result opens it and closes the search; Escape closes; other keys change nothing |
| NavbarSearch.SearchBox.OnCloseButton | src/components/navbar-search.tsx:294-298 | the close button closes and clears the search; the debounced query, the searching flag and both preferences are unchanged |
| NavbarSearch.SearchBox.OnOutsideMouseDown | src/components/navbar-search.tsx:78-98 | a press outside closes and clears the search, a press inside changes nothing; the debounced query, the searching flag and both preferences are unchanged either way |
| NavbarSearch.SearchBox.OnResultHover | src/components/navbar-search.tsx:367 | pointing at a result selects it and changes nothing else |
| NavbarSearch.SearchBox.OnResultClick | src/components/navbar-search.tsx:356-360 | clicking a result opens its page and closes the search; the debounced query, the searching flag and both preferences are unchanged |
| NavbarSearch.SearchBox.ToggleIcons | src/components/navbar-search.tsx:399 | flips the icon preference and keeps the box consistent; the query, results, selection, debounced query and searching flag are unchanged |
| NavbarSearch.SearchBox.ToggleHighlight | src/components/navbar-search.tsx:412 | flips the highlight preference and keeps the box consistent; the query, results, selection, debounced query and searching flag are unchanged |
| NavbarSearch.SearchBox.OnSeeAll | src/components/navbar-search.tsx:429-448 | with both queries blank the search stays open with its selection; otherwise it navigates to the "see all" link and closes; the preferences and the debounced query are unchanged either way |
| NavbarSearch.NameOf | src/components/navbar-search.tsx:132 | definition: the product's name as text, lower-cased, or empty when it has none |
| NavbarSearch.Matches | src/components/navbar-search.tsx:134 | definition: the lower-cased name contains every token |
| NavbarSearch.Kept | src/components/navbar-search.tsx:131-135 | what the filter keeps of one product: at most that product |
| NavbarSearch.Filter | src/components/navbar-search.tsx:131-135 | the filtered list is no longer than the reply; `FilterMembers` and `FilterAppend` state which products it keeps and in what order |
| NavbarSearch.Special | src/components/navbar-search.tsx:185 | definition: the fourteen characters the escaping pattern matches |
| NavbarSearch.EscapeAll | src/components/navbar-search.tsx:185 | every word is escaped on its own, in order |
| NavbarSearch.SeeAllParams | src/components/navbar-search.tsx:443-448 | definition of the "see all" query `q`, `icons`, `highlight`; `SeeAllParamsReadBack` proves the home page reads each back |
| NavbarSearch.SearchBox.DropdownShown | src/components/navbar-search.tsx:307 | definition: the dropdown shows while the search is open and the query is not blank |
| CheckoutModal.BuildItemsPayload | src/components/modals/checkout-modal.tsx:62-70 | one request line per cart entry, in order, with its id and quantity and its name or else its id |
| CheckoutModal.RequestBody | src/components/modals/checkout-modal.tsx:87-89 | the body holds `items`, `validateOnly: true` only when asked for, and every member of `extra` copied over them, and nothing else |
| CheckoutModal.ValidateBodyShape | src/components/modals/checkout-modal.tsx:287-291 | the open-time body asks for validation only, carries the cart's lines, and carries the store id exactly when there is a non-empty one |
| CheckoutModal.CommitBodyShape | src/components/modals/checkout-modal.tsx:424-435 | the commit body carries the cart's lines and the five form values, no `validateOnly`, and the store id exactly when there is one |
| CheckoutModal.CommitExtraShape | src/components/modals/checkout-modal.tsx:428-434 | the commit's extra members are the store id (when there is one) and the five customer fields |
| CheckoutModal.RouteReceivesCart | src/components/modals/checkout-modal.tsx:62-70 | for ids and names that need no trimming and non-zero quantities, the checkout proxy forwards every cart line unchanged, in cart order |
| CheckoutModal.ItemForwarded | src/components/modals/checkout-modal.tsx:65-69 | one such cart line sent by the dialog is forwarded by the proxy as it was |
| CheckoutModal.PayloadItemMembers | src/components/modals/checkout-modal.tsx:65-69 | a request line carries `productId`, `name` and `quantity` |
| CheckoutModal.ValidateStockRequest | src/components/modals/checkout-modal.tsx:82-137 | POSTs to the shop's route, and a second time to the admin service exactly when the first answer is a 404 and an admin address is set; the result is what the last request gave, with an error exactly when no status came back |
| CheckoutModal.NotFoundWithoutAdmin | src/components/modals/checkout-modal.tsx:107-113 | a 404 with no admin address configured fails without a retry |
| CheckoutModal.TryFetch | src/components/modals/checkout-modal.tsx:155-163 | only an ok answer with a JSON body yields something truthy |
| CheckoutModal.StoreCandidates | src/components/modals/checkout-modal.tsx:169-190 | the two shop proxies come first, followed by at most two origin addresses |
| CheckoutModal.StoreCandidatesOrder | src/components/modals/checkout-modal.tsx:171-190 | an origin candidate is present exactly when its address is set and parses, the public API's before the admin's |
| CheckoutModal.FirstTruthyFetch | src/components/modals/checkout-modal.tsx:193-205 | the first truthy answer in candidate order, every earlier candidate having given nothing; `null` when none answers |
| CheckoutModal.FirstStoreResponse | src/components/modals/checkout-modal.tsx:193-205 | the loop over the candidates computes that first truthy answer |
| CheckoutModal.FetchStoreSettings | src/components/modals/checkout-modal.tsx:165-236 | the lookup gives the candidates' answer and then the two fallbacks while nothing truthy came back |
| CheckoutModal.ApiMatch | src/components/modals/checkout-modal.tsx:213 | the leftmost position from which `/api/` followed by at least one character to the end matches |
| CheckoutModal.ApiPathStoreId | src/components/modals/checkout-modal.tsx:213-215 | the id read off the path is the segment after `/api/` and holds no `/` |
| CheckoutModal.SplitWithoutSep | src/components/modals/checkout-modal.tsx:215 | a segment without the separator splits into itself |
| CheckoutModal.PublicApiFallbackOfStorePath | src/components/modals/checkout-modal.tsx:208-222 | a public API address with path `/api/<id>` is asked at its origin's store endpoint for that id |
| CheckoutModal.AdminFallbackRepeatsCandidate | src/components/modals/checkout-modal.tsx:224-236 | the admin fallback only repeats the last candidate, which already gave nothing |
| CheckoutModal.CandidateAnswerWins | src/components/modals/checkout-modal.tsx:201-209 | a candidate that answers ends the lookup; neither fallback is consulted |
| CheckoutModal.NoStoreNoSettings | src/components/modals/checkout-modal.tsx:168-236 | with no store id and no public API address no settings are found |
| CheckoutModal.MapOption | src/components/modals/checkout-modal.tsx:244-248 | a method entry shows its `method`, else `value`, else itself, and is disabled exactly when its status is not "Aktif"; a `null` entry throws |
| CheckoutModal.BareStringOption | src/components/modals/checkout-modal.tsx:244-248 | a method given as a bare string shows that string and is disabled |
| CheckoutModal.ActiveMethodOption | src/components/modals/checkout-modal.tsx:244-248 | an active method object shows its method and label and can be chosen |
| CheckoutModal.MapOptions | src/components/modals/checkout-modal.tsx:243-249 | every entry mapped in order, or nothing when one entry is `null` |
| CheckoutModal.OptionsFrom | src/components/modals/checkout-modal.tsx:239-267 | no options from a falsy response; a list is set only from a non-empty method array |
| CheckoutModal.NullEntryEffects | src/components/modals/checkout-modal.tsx:239-271 | a `null` payment entry suppresses both lists; otherwise the payment list is the mapped methods |
| CheckoutModal.FirstEnabled | src/components/modals/checkout-modal.tsx:363 | the first option that is not disabled, every earlier one being disabled |
| CheckoutModal.DefaultValue | src/components/modals/checkout-modal.tsx:358-374 | a filled field or a missing or empty list leaves the value alone; otherwise it becomes one of the options' values |
| CheckoutModal.DefaultPrefersEnabled | src/components/modals/checkout-modal.tsx:362-369 | an empty field defaults to the first enabled option, never a disabled one |
| CheckoutModal.FailedEntry | src/components/modals/checkout-modal.tsx:297-309 | a failure row keeps the reason exactly when one was given, and its available count is never a 0 read from text |
| CheckoutModal.Failures | src/components/modals/checkout-modal.tsx:293-332 | one row per entry of the server's `failed` list, or a single row with the reason; a `null` entry throws |
| CheckoutModal.NormalizeFailures | src/components/modals/checkout-modal.tsx:295-332 | the loop builds exactly those rows |
| CheckoutModal.CheckStock | src/components/modals/checkout-modal.tsx:285-348 | no failures and no toast when the open-time check succeeds; otherwise the normalised rows and the toast `OpenToast` gives for them; a `null` entry throws before any toast |
| CheckoutModal.OpenToast | src/components/modals/checkout-modal.tsx:336-342 | the toast is raised iff there is a first row with a truthy reason and the answer's `failed` member is an array, and then counts that array's entries |
| CheckoutModal.OpenToastCountsRows | src/components/modals/checkout-modal.tsx:296-342 | with a listed failure array the toast counts exactly the rows shown, and is raised iff the first listed entry has a truthy reason |
| CheckoutModal.EmptyFailedArrayToast | src/components/modals/checkout-modal.tsx:296-342 | an empty `failed` array falls back to a single reason row and still raises the toast, counting 0 items, when that reason is not empty |
| CheckoutModal.FailureDisablesSubmit | src/components/modals/checkout-modal.tsx:612-615 | a failed check with readable rows disables the submit button |
| CheckoutModal.StockMessage | src/components/modals/checkout-modal.tsx:405-411 | "Beberapa item stok tidak cukup" whenever the server sent a failure list, else "Stok tidak valid" |
| CheckoutModal.CommitMessage | src/components/modals/checkout-modal.tsx:437-442 | the server's `error`, else its `message`, else the default message |
| CheckoutModal.SubmitResult | src/components/modals/checkout-modal.tsx:391-465 | the stock is rejected exactly when validation fails; details are missing exactly when it passes with a blank field; the order is placed exactly when validation, the details and the commit all pass |
| CheckoutModal.DecideSubmit | src/components/modals/checkout-modal.tsx:398-448 | the awaited steps of a submit end in `SubmitResult` |
| CheckoutModal.BlankDetailsNeverOrder | src/components/modals/checkout-modal.tsx:414-422 | a blank name, address or phone never places an order, whatever the servers answer |
| CheckoutModal.CheckoutDialog.constructor | src/components/modals/checkout-modal.tsx:37-79 | not loading or submitting, no failures, no options, an empty form |
| CheckoutModal.CheckoutDialog.OnOpenEffect | src/components/modals/checkout-modal.tsx:140-354 | closed, the failure list is forgotten; open, the store's options are set from the lookup, and the failures and the returned toast from the stock check |
| CheckoutModal.CheckoutDialog.ApplyDefaults | src/components/modals/checkout-modal.tsx:357-379 | each select takes its default from its options and nothing else changes |
| CheckoutModal.CheckoutDialog.ResetOnClose | src/components/modals/checkout-modal.tsx:381-386 | the form returns to its empty values when the dialog is closed |
| CheckoutModal.CheckoutDialog.StartSubmit | src/components/modals/checkout-modal.tsx:485 | `handleSubmit` reaches `onSubmit` only when the name, address and phone are non-empty; the submit then starts exactly when none is in flight (lines 391-397), and marks itself in flight |
| CheckoutModal.FilledDetailsPassRules | src/components/modals/checkout-modal.tsx:414-422 | details that pass the handler's trimmed check pass the form's `required` rules, but a name of one space passes the rules and fails the check |
| CheckoutModal.CheckoutDialog.FinishSubmit | src/components/modals/checkout-modal.tsx:449-463 | a placed order empties the cart and closes the dialog; any other outcome leaves both; the dialog is ready for another submit |
| CheckoutModal.PayloadJson | src/components/modals/checkout-modal.tsx:62-70 | the request lines are written as a JSON array of the same length |
| CheckoutModal.ValidateBody | src/components/modals/checkout-modal.tsx:287-291 | definition of the stock-check body (see `ValidateBodyShape`) |
| CheckoutModal.CommitBody | src/components/modals/checkout-modal.tsx:424-435 | definition of the commit body (see `CommitBodyShape`) |
| CheckoutModal.OriginCandidate | src/components/modals/checkout-modal.tsx:175-190 | at most one candidate: the store endpoint under the origin of a set and parsing address |
| CheckoutModal.PublicApiFallback | src/components/modals/checkout-modal.tsx:208-222 | definition of the first fallback (see `PublicApiFallbackOfStorePath`) |
| CheckoutModal.AdminFallback | src/components/modals/checkout-modal.tsx:224-236 | definition of the second fallback (see `AdminFallbackRepeatsCandidate`) |
| CheckoutModal.FailureReason | src/components/modals/checkout-modal.tsx:311-331 | definition: the server's `error` text, else the request's error, else "unknown" |
| CheckoutModal.SubmitDisabled | src/components/modals/checkout-modal.tsx:613-614 | definition: disabled while failed items are listed or a submit is in flight (see `FailureDisablesSubmit`) |
| CheckoutModal.DetailsFilled | src/components/modals/checkout-modal.tsx:414-422 | definition of the handler's check: name, address and phone are not blank once trimmed (see `BlankDetailsNeverOrder`) |
| CheckoutModal.RequiredFilled | src/components/modals/checkout-modal.tsx:489 | definition of the form's `required` rules on name (line 489), address (504) and phone (519): each non-empty |
| Text.TrimStart | src/components/navbar-search.tsx:128 | removes a leading run of white space and nothing else; the result starts with no white space |
| Text.TrimEnd | src/components/navbar-search.tsx:128 | removes a trailing run of white space and nothing else; the result ends with no white space |
| Text.Trim | src/components/navbar-search.tsx:128 | white space at neither end; empty exactly for blank text; text with no white space at its ends is unchanged |
| Text.TrimBlank | src/components/navbar-search.tsx:128 | trimming both ends leaves nothing exactly when the text is blank |
| Text.TrimStartOfSpace | src/components/navbar-search.tsx:128 | blank text trims to nothing |
| Text.TrimEmptyOnlySpace | src/components/navbar-search.tsx:128 | text that trims to nothing was blank |
| Text.LowerChar | src/components/navbar-search.tsx:128 | an upper-case ASCII letter becomes the matching lower-case one, no upper-case ASCII letter comes out, and every other character is unchanged |
| Text.Lower | src/components/navbar-search.tsx:128 | same length, each character lowered on its own, no upper-case ASCII letter left |
| Text.LowerIdempotent | src/components/navbar-search.tsx:128 | lowering twice is lowering once |
| Text.LowerOfLowercase | src/components/navbar-search.tsx:128 | text without upper-case letters is its own lower case |
| Text.DropTrailingSlash | src/components/modals/checkout-modal.tsx:109-112 | exactly one trailing slash is removed when there is one; other text is unchanged |
| Text.TakeWord | src/components/navbar-search.tsx:129 | the leading run of non-space characters, ending at white space or the end |
| Text.WordsAreRuns | src/components/navbar-search.tsx:129 | every word is a non-empty run of non-space characters |
| Text.WordsEmptyIffBlank | src/components/navbar-search.tsx:129 | there are no words exactly when the text is blank |
| Text.WordsOfWord | src/components/navbar-search.tsx:129 | a single word is its own only word |
| Text.TakeWordBeforeSpace | src/components/navbar-search.tsx:129 | a word ends at the first white space after it |
| Text.WordsSkipSpace | src/components/navbar-search.tsx:129 | leading white space adds no word |
| Text.WordsCons | src/components/navbar-search.tsx:129 | a word followed by white space is the first word, and the rest gives the others |
| Text.WordsOfUnwords | src/components/navbar-search.tsx:129 | non-empty words without white space, joined by single spaces, split back into the same words |
| Text.UnwordsTrimmed | src/components/navbar-search.tsx:128-129 | such joined words are non-empty and neither start nor end with white space |
| Text.LowerAppend | src/components/navbar-search.tsx:128 | lowering distributes over concatenation |
| Text.LowerUnwords | src/components/navbar-search.tsx:128 | lowering joined words is joining the lowered words |
| Text.DigitsOnly | src/components/ui/add-to-cart.tsx:166 | keeps only digits, text made of digits is unchanged, and a single character is kept exactly when it is a digit |
| Text.DigitsOnlyAppend | src/components/ui/add-to-cart.tsx:166 | filtering distributes over concatenation |
| Text.NatToString | src/components/ui/add-to-cart.tsx:60 | `String(n)` of a natural number is a non-empty run of digits |
| Text.DigitsValueOfNat | src/components/ui/add-to-cart.tsx:60 | the digits printed for a natural number read back as that number |
| Text.NumberOfIntToString | src/components/ui/add-to-cart.tsx:163-170 | `Number(String(n))` is `n` for every integer |
| Text.NumberOfNonNegative | src/components/ui/add-to-cart.tsx:163-170 | `Number(String(n))` is `n` for a natural number |
| Text.NumberOfNegative | src/components/ui/add-to-cart.tsx:163-170 | `Number(String(n))` is `n` for a negative integer |
| Text.NumberOfDigits | src/components/ui/add-to-cart.tsx:170 | `Number` of a run of digits is its decimal value |
| Text.TakeDigits | src/components/product-list-with-sort.tsx:35 | the leading run of digits, ending at a non-digit or the end |
| Text.ParseFloatIgnoresTail | src/components/product-list-with-sort.tsx:35 | `parseFloat` reads the leading digits and ignores whatever follows them |
| Text.ParseFloatOfDigitStart | src/components/product-list-with-sort.tsx:35 | text starting with a digit is read from its first character |
| Text.TakeDigitsPrefix | src/components/product-list-with-sort.tsx:35 | the leading digits of digits followed by a non-digit are those digits |
| Text.HexDigit | src/components/navbar-search.tsx:118 | a hexadecimal digit is an unreserved character |
| Text.Utf8 | src/components/navbar-search.tsx:118 | a code point takes one to four bytes, each below 256 |
| Text.PercentBytes | src/components/navbar-search.tsx:118 | each byte becomes three characters, `%` and two hexadecimal digits |
| Text.EncodeURIComponent | src/components/navbar-search.tsx:118 | only unreserved characters and percent escapes remain; text of unreserved characters is unchanged |
| Text.FormEncodeChar | src/components/navbar-search.tsx:443-448 | a character the form encoder leaves alone stays as it is; the others become `+` or escapes |
| Text.FormEncode | src/components/navbar-search.tsx:443-448 | only unreserved characters, `+` and escapes remain; text the encoder leaves alone is unchanged |
| Text.FormEncodeNoSeparators | src/components/navbar-search.tsx:443-448 | an encoded value holds no `&` or `=`, so it cannot split a query |
| Text.EncodeNoSeparators | src/components/navbar-search.tsx:118 | the encoded query holds no `&`, `=` or `#` |
| Text.IntToString | src/components/ui/add-to-cart.tsx:60 | definition of `String(n)`; `NumberOfIntToString` proves `Number` reads it back |
| Text.NumberOf | src/components/ui/add-to-cart.tsx:170 | definition of `Number(s)` on integer notation; `NumberOfDigits` and `NumberOfIntToString` state what it reads |
| Text.ParseFloatPrefix | src/components/product-list-with-sort.tsx:114 | definition of `parseFloat` on integer notation; `ParseFloatIgnoresTail` and `ParseFloatOfDigitStart` state what it reads |
| Text.Words | src/components/navbar-search.tsx:129 | definition of `split(/\s+/).filter(Boolean)`; `WordsAreRuns`, `WordsCons` and `WordsOfUnwords` state its meaning |
| Text.Unwords | src/components/navbar-search.tsx:129 | definition: words joined by single spaces, the reference `WordsOfUnwords` splits back |
| Percent.HexValue | src/app/api/search/route.ts:15 | the digits 0-9, A-F and a-f have their values, below 16; any other character has none |
| Percent.HexValueOfDigit | src/app/api/search/route.ts:15 | reading back a printed hexadecimal digit gives its value |
| Percent.EscapedByte | src/app/api/search/route.ts:15 | an escape `%XX` spells a byte below 256 |
| Percent.EscapedByteShift | src/app/api/search/route.ts:15 | an escape read after a prefix is the escape read in the rest |
| Percent.EscapedByteOfPercent | src/app/api/search/route.ts:15 | the k-th escape of escaped bytes spells the k-th byte |
| Percent.DecodeEscape | src/app/api/search/route.ts:15 | a decoded run of escapes starts with `%` and takes three to twelve characters of the input |
| Percent.FormDecode | src/app/api/search/route.ts:15 | the decoded value is never longer than what was written |
| Percent.FormDecodeOfPlain | src/app/api/search/route.ts:15 | text with neither `+` nor `%` reads back as itself |
| Percent.DecodeLiteral | src/app/api/search/route.ts:15 | any other character reads back as itself |
| Percent.DecodeEscapedChar | src/app/api/search/route.ts:15 | the escapes of one character's UTF-8 bytes read back as that character |
| Percent.DecodeEscapeOfChar | src/app/api/search/route.ts:15 | the escape run of one character decodes to that character and takes exactly its escapes |
| Percent.FormDecodeOfEncodeURIComponent | src/app/api/search/route.ts:15 | decoding undoes `encodeURIComponent` for every string |
| Percent.FormDecodeOfFormEncode | src/components/navbar-search.tsx:443-448 | decoding undoes the form encoder for every string |
| Percent.QuotUnique | src/app/api/search/route.ts:15 | a quotient and remainder are the only ones |
| Percent.Utf8Two | src/app/api/search/route.ts:15 | a two-byte encoding has a lead byte C2-DF and a continuation byte, and decodes to its code point |
| Percent.Utf8Three | src/app/api/search/route.ts:15 | a three-byte encoding has a lead byte E0-EF and two continuation bytes, and decodes to its code point |
| Percent.Utf8Four | src/app/api/search/route.ts:15 | a four-byte encoding has a lead byte F0-F4 and three continuation bytes, and decodes to its code point |
| Urls.IndexOfAny | src/app/api/checkout/route.ts:40 | the first position holding one of the stop characters, or the end when there is none |
| Urls.IndexOfAnyAfter | src/app/api/checkout/route.ts:40 | when the first part has no stop character, the first one is where the second part starts |
| Urls.IndexOfAnyNone | src/app/api/checkout/route.ts:40 | text with no stop character is scanned to its end |
| Urls.SchemeLength | src/app/api/checkout/route.ts:31 | the scheme of an `http://` or `https://` address is four or five letters long |
| Urls.Parse | src/app/api/checkout/route.ts:40 | a parsed address has scheme http or https, a non-empty host and a path starting with `/` |
| Urls.ParseAfterScheme | src/app/api/checkout/route.ts:40 | what follows the scheme gives a non-empty host and a path starting with `/` |
| Urls.PathAndQuery | src/app/api/checkout/route.ts:40 | the path is never empty and starts with `/` |
| Urls.ParseSerialize | src/app/api/checkout/route.ts:40 | parsing a printed canonical address gives it back |
| Urls.ParseSerializedScheme | src/app/api/checkout/route.ts:40 | parsing a printed address parses what follows its scheme |
| Urls.SerializeSplit | src/app/api/checkout/route.ts:40 | a printed address is its scheme and `://` followed by the rest |
| Urls.ParseHttp | src/app/api/checkout/route.ts:40 | an `http://` address is parsed from what follows the scheme |
| Urls.ParseHttps | src/app/api/checkout/route.ts:40 | an `https://` address is parsed from what follows the scheme |
| Urls.ParseAfterSchemeOf | src/app/api/checkout/route.ts:40 | the host, path and query of a canonical address are read back |
| Urls.PathAndQueryOf | src/app/api/checkout/route.ts:40 | a path and query with no splitting characters are read back |
| Urls.ResolveRequestUrl | src/app/api/search/route.ts:5-14 | an absolute request address is used as it is; a relative one is put behind `http://localhost:<port>`; the result always parses |
| Urls.LocalhostShape | src/app/api/search/route.ts:12 | the localhost address starts with `http://localhost:` and ends with the request path |
| Urls.LocalhostParses | src/app/api/search/route.ts:12 | the localhost address parses |
| Urls.Split | src/app/api/search/route.ts:14-15 | at least one part, none holding the separator |
| Urls.JoinSplit | src/app/api/search/route.ts:14-15 | joining the parts again gives the text back |
| Urls.SplitCons | src/app/api/search/route.ts:14-15 | splitting at the first separator gives the part before it, then the split of the rest |
| Urls.SplitNone | src/app/api/search/route.ts:14-15 | text without the separator is its own only part |
| Urls.PairOf | src/app/api/search/route.ts:15 | a pair written `key=value` has that name and that value |
| Urls.FirstValue | src/app/api/search/route.ts:15 | a value is found only under a pair whose decoded name is the name asked for, and is that pair's decoded value; none is found exactly when no decoded name matches |
| Urls.QueryGetSingle | src/app/api/search/route.ts:15 | a query of a single pair with a plain name gives that pair's value back, decoded |
| Urls.SplitSinglePair | src/app/api/search/route.ts:15 | a pair without `&` is the query's only part |
| Urls.FirstValueSingle | src/app/api/search/route.ts:15 | a single pair with the name asked for gives its decoded value |
| Urls.IdSuffix | src/app/api/checkout/route.ts:44 | the longest run of id characters at the end of the text |
| Urls.StoreIdLikeCorrect | src/app/api/checkout/route.ts:44 | the computed store-id test agrees with the pattern in both directions |
| Urls.StoreIdLikeSound | src/app/api/checkout/route.ts:44 | when the test passes, `/api/` and six or more id characters end the text |
| Urls.StoreIdLikeComplete | src/app/api/checkout/route.ts:44 | any `/api/` followed by six or more id characters to the end passes the test |
| Urls.IdSuffixLength | src/app/api/checkout/route.ts:44 | the trailing run of id characters starts just after the last character that is not one |
| Urls.HasHttpScheme | src/app/api/checkout/route.ts:31 | definition: the text starts with `http://` or `https://` in any letter case |
| Urls.Serialize | src/app/api/checkout/route.ts:40 | definition of a printed address; `ParseSerialize` proves parsing gives it back |
| Urls.Origin | src/app/api/checkout/route.ts:50 | definition: scheme, `://` and host of a parsed address |
| Urls.QueryGet | src/app/api/search/route.ts:15 | definition of `searchParams.get`: the decoded value of the first pair whose decoded name matches (see `FirstValue`, `QueryGetSingle`) |
| Urls.StoreIdLike | src/app/api/checkout/route.ts:44 | the computed store-id test; `StoreIdLikeCorrect` proves it agrees with the pattern both ways |
| Json.NumberOr | src/components/modals/checkout-modal.tsx:305 | `Number(v)` when that is a non-zero number, else the default `d` (for NaN and for 0) |
| Json.ToJsStringOfScalars | src/components/modals/checkout-modal.tsx:245 | `String` of text is that text, and of a number reads back as that number |
| Json.Truthy | src/app/api/checkout/route.ts:8 | definition of JavaScript truthiness: `null`, `false`, 0 and the empty string are falsy, everything else truthy |
| Json.OptTruthy | src/app/api/checkout/route.ts:8 | definition: truthiness of a value that may be missing, where missing is falsy |
| Json.Member | src/app/api/checkout/route.ts:8 | definition: an object's member when present, missing otherwise |
| Json.Coalesce | src/components/modals/checkout-modal.tsx:60 | definition of `a ?? b`: `b` when `a` is missing or `null` |
| Json.ToJsString | src/app/api/checkout/route.ts:11 | definition of `String(v)`; `ToJsStringOfScalars` states it on text and numbers |
| Json.ToNumber | src/app/api/checkout/route.ts:13 | definition of `Number(v)` on the values the handlers read |

## Left out

- Network I/O (`fetch`, `Response.json`, `NextResponse`) is not modelled. Each reply is an input, and each async sequence becomes sequential steps.
- The `mounted` cancellation flags, effect re-run timing and debounce/animation timers are not modelled. A timer firing is a method the caller invokes.
- `localStorage` is modelled only as an optional stored cart document read at startup and a save after every change. A failed save is ignored. The search box's display preferences are fields of the box; reading and writing them in storage is not modelled.
- DOM, focus and animation are not modelled. This covers the drawer's scroll lock, viewport height and focus trap, the cart button's flying image, and window `CustomEvent` broadcasts. The cart button's toggle event is an input.
- Toasts and `alert` messages are modelled only as the message chosen, not as their display.
- Numbers are integers. Prices, dates and sales counts are whole numbers.
- `Text.ParseFloatPrefix`: `parseFloat` reads only an integer prefix, so a fraction after the decimal point is dropped. Exponents and a leading dot are not read either: `parseFloat("1e3")` gives 1000 and `parseFloat(".5")` gives 0.5, while the model reads 1 and nothing. A string sales count in that notation is therefore read differently by `ProductSort.SoldValue` (1, or no value so the next candidate member is tried).
- `Json.ToNumber`: an array is taken as not a number, whereas `Number([5])` is 5 (an array is converted through its string form). A forwarded item whose quantity is the one-element array `[5]` therefore gets quantity 0 in `CheckoutRoute.NormalizeItem`, where the route sends 5.
- `Text.NumberOf`: `Number` accepts only integer text. `Number("1.5")`, `Number("2.0")`, `Number("1e3")` and `Number("0x10")` are treated as NaN, where JavaScript reads 1.5, 2, 1000 and 16. A visible effect: `CartDrawer.EditedQuantity` stores 1 for a typed `"2.0"`, where the drawer stores 2.
- `Intl` formatting, `toFixed` and the star-rating percentage are not modelled.
- `ProductSort.StrCompare`: the `nama` order is code-point order on the names, standing in for `localeCompare`. Only the total-order laws are claimed.
- `ProductSort.SortedItems`: a `null` or `undefined` product list (src/components/product-list-with-sort.tsx:46) is not modelled. The list is always a sequence.
- Date parsing in `getCreated` is a function parameter (`parseDate`), not a model of `Date`.
- `Urls.Parse`: only absolute `http`/`https` URLs with a non-empty host parse. Every relative address fails, as with `new URL(...)`. Other schemes also fail here, although `new URL` accepts them (`ftp://h/x`, `ws://h`, `file:///x`). The effects: `ReviewsRoute.Get` with an admin address of another scheme answers 500 because the address does not parse, where the route builds it, its fetch rejects and it answers 502 `{"error":"admin unreachable"}`; `CheckoutModal.OriginCandidate`, `CheckoutModal.PublicApiFallback` and `CheckoutModal.AdminFallback` leave out a settings address of another scheme that the dialog would try, though that fetch fails, so the settings found are the same; `Urls.ResolveRequestUrl` puts the localhost origin in front of a request address of another scheme, which the server never receives. It is not the full WHATWG parser: a default port (`:80` for http, `:443` for https) stays in the host, user information (`user:pass@`) stays in the host, and the host and port are not validated, so an invalid port or a forbidden host character still parses where `new URL` throws. Backslashes, tabs and newlines are not normalised, and the path is not percent-encoded. Extra slashes after the scheme are not skipped: `http:///host/path` fails to parse here, where the WHATWG parser reads host `host`.
- `Json.Spread`: a string is spread one Unicode character per member. JavaScript spreads UTF-16 code units, so a character outside the Basic Multilingual Plane gives two members there and one here.
- `Urls.Origin`: for such an address the origin keeps the default port and the user information that `URL.origin` drops.
- `CheckoutRoute.ForwardUrl`: for an absolute base with an invalid port or host, the model takes the origin branch, where the source's `new URL` throws and the fallback at src/app/api/checkout/route.ts:79-86 is taken.
- `Text.Lower` and `Text.Trim`: case folding and white space cover ASCII only. Unicode case mapping and Unicode spaces are not modelled.
- `Percent.FormDecode`: an escape that is malformed, or whose bytes are not valid UTF-8, is kept as written, where `URLSearchParams` puts U+FFFD in its place.
- `ReviewsRoute.WithParam`: `searchParams.set` is modelled only on a query without a `productId` pair, where it appends. The reviews endpoint never has one.
- Regular expressions are written out as predicates over the few patterns the code uses. Line terminators inside them are not modelled.
- The reply body `ExceptionBody` stands for the 500 reply built from a thrown error. The error's message text is not modelled.
- `NavbarSearch.SearchBox.OnSearchReply`: takes the answer already turned into a result list by `NavbarSearch.ReplyShown`. An answer is dropped when the query it was sent for is no longer the current one, which stands for the `mounted` flag.
- `CheckoutModal.CheckoutDialog.FinishSubmit`: the outcome of `onSubmit` is decided by the pure `CheckoutModal.DecideSubmit` / `CheckoutModal.SubmitResult`, and `FinishSubmit` applies it to the dialog and the cart. The awaits between the steps are not interleaved with other events.
- Authentication and review forms, `src/actions/*`, the debug admin route, layout and purely presentational components are not part of this model.
- `src/hooks/use-cart.ts` is not part of this model.

## Findings

| source | as written | input that shows it | evidently intended | confidence | as-written member | corrected member |
|---|---|---|---|---|---|---|
| src/components/info.tsx:115 | the detail page's quantity panel gets `max = quantity ?? 0`, ignoring `stock` | a product with no `quantity` and `stock` 5: the page shows "Stok rendah", but adding 1 unit through the panel is refused as sold out | the panel's bound is the page's own available stock `quantity ?? stock ?? 0` (line 43) | not executed | Info.AsWrittenPanelRefusesStockOnlyProduct | Info.PanelAgreesWithPage |
| src/components/main-nav.tsx:50-52 | clicking a category link always sets the spinner on | clicking the link of the category already shown: the pathname does not change, so the path effect (lines 20-25) does not clear it and the spinner stays on until the shopper navigates elsewhere | turn the spinner on only when the click leads to another path | not executed | MainNav.ActiveLinkClickLeavesSpinnerOn | MainNav.ClickThenArrive |
