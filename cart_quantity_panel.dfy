/**
 * The quantity panel of the product page (src/components/ui/cart-quantity-panel.tsx):
 * a stepper with a text field and an add button that checks the stock against what
 * the cart already holds before handing the quantity to its `onAdd`.
 */
module CartQuantityPanel {
  import opened Wrappers
  import opened Text
  import opened QtySelector
  import opened CartProvider
  import opened StockGuard
  import AddToCart

  /** What the sync effect puts in the field: a placeholder while untouched at the initial quantity. */
  function SyncedInput(qty: int, initial: int, hasUserInput: bool): (r: string)
    ensures r == "" <==> !hasUserInput && qty == initial
    ensures r != "" ==> NumberOf(r) == Some(qty)
  {
    if !hasUserInput && qty == initial then ""
    else
      NumberOfIntToString(qty);
      IntToString(qty)
  }

  /** The dependencies of the sync effect. */
  datatype SyncDeps = SyncDeps(qty: int, initial: int, hasUserInput: bool)

  class QuantityPanel {
    const productId: string
    const initial: int
    /** The stock; `None` is unbounded. */
    const max: Option<int>
    var qty: int
    var loading: bool
    var localInput: Option<string>
    var hasUserInput: bool
    var lastDeps: Option<SyncDeps>

    function CurrentDeps(): SyncDeps
      reads this
    {
      SyncDeps(qty, initial, hasUserInput)
    }

    /** `initial` defaults to 1, and the quantity starts there. */
    constructor(productId: string, initial: Option<int>, max: Option<int>)
      ensures this.productId == productId && this.initial == initial.GetOr(1) && this.max == max
      ensures qty == this.initial && !loading && localInput == None && !hasUserInput && lastDeps == None
    {
      this.productId := productId;
      this.initial := initial.GetOr(1);
      this.max := max;
      qty := initial.GetOr(1);
      loading := false;
      localInput := None;
      hasUserInput := false;
      lastDeps := None;
    }

    /** After a render the sync effect runs, but only when one of its dependencies changed. */
    method AfterRender()
      modifies this
      ensures lastDeps == Some(CurrentDeps())
      ensures old(lastDeps) != Some(old(CurrentDeps())) ==> localInput == Some(SyncedInput(qty, initial, hasUserInput))
      ensures old(lastDeps) == Some(old(CurrentDeps())) ==> localInput == old(localInput)
      ensures qty == old(qty) && hasUserInput == old(hasUserInput) && loading == old(loading)
    {
      if lastDeps != Some(CurrentDeps()) {
        localInput := Some(SyncedInput(qty, initial, hasUserInput));
      }
      lastDeps := Some(CurrentDeps());
    }

    /** The minus button: one less, never below 1. */
    method Dec()
      modifies this
      ensures qty == QtySelector.Dec(old(qty), 1) && qty >= 1
      ensures localInput == old(localInput) && hasUserInput == old(hasUserInput)
      ensures loading == old(loading) && lastDeps == old(lastDeps)
    {
      qty := QtySelector.Dec(qty, 1);
    }

    /** The plus button: one more, capped by the stock when it is known. */
    method Inc()
      modifies this
      ensures qty == QtySelector.Inc(old(qty), max)
      ensures max.Some? ==> qty <= max.value
      ensures localInput == old(localInput) && hasUserInput == old(hasUserInput)
      ensures loading == old(loading) && lastDeps == old(lastDeps)
    {
      qty := QtySelector.Inc(qty, max);
    }

    /** Typing: the field keeps the digits; a non-empty entry sets the quantity, clamped into `[1, max]`. */
    method OnInput(text: string)
      modifies this`localInput, this`hasUserInput, this`qty
      ensures localInput == Some(DigitsOnly(text)) && hasUserInput
      ensures qty == AddToCart.TypedChange(text, 1, max).GetOr(old(qty))
      ensures DigitsOnly(text) != "" && Consistent(1, max) ==> InRange(qty, 1, max)
      ensures loading == old(loading) && lastDeps == old(lastDeps)
    {
      var raw := DigitsOnly(text);
      localInput := Some(raw);
      hasUserInput := true;
      if raw == "" {
        return;
      }
      qty := TypedValue(raw, 1, max);
    }

    /** Leaving the field: an empty field keeps the quantity and drops the typed mark; other text is re-read. */
    method OnBlur()
      modifies this
      ensures old(localInput) == Some("") ==> !hasUserInput && qty == old(qty)
      ensures old(localInput).Some? && old(localInput) != Some("") ==>
        qty == TypedValue(old(localInput).value, 1, max) && hasUserInput == old(hasUserInput)
      ensures old(localInput).None? ==> qty == old(qty) && hasUserInput == old(hasUserInput)
      ensures localInput == old(localInput) && loading == old(loading) && lastDeps == old(lastDeps)
    {
      if localInput == Some("") {
        hasUserInput := false;
      } else if localInput.Some? {
        qty := TypedValue(localInput.value, 1, max);
      }
    }

    /**
     * The add button, given the cart's lines: the stock check, and the quantity handed to
     * `onAdd` exactly when it passes. Loading is over when the handler returns.
     */
    method HandleAdd(items: seq<CartItem>) returns (verdict: Verdict, requested: Option<int>)
      modifies this
      ensures verdict == Check(max, ExistingQuantity(items, productId), qty)
      ensures requested == if verdict == Accepted then Some(qty) else None
      ensures !loading
      ensures qty == old(qty) && localInput == old(localInput) && hasUserInput == old(hasUserInput)
      ensures lastDeps == old(lastDeps)
    {
      verdict := Check(max, ExistingQuantity(items, productId), qty);
      requested := None;
      if verdict == Accepted {
        loading := true;
        requested := Some(qty);
      }
      loading := false;
    }

    /**
     * Enter in the field: the field is blurred, then the add runs with the quantity the
     * handler was rendered with, not the one the blur just set.
     */
    method OnEnter(items: seq<CartItem>) returns (verdict: Verdict, requested: Option<int>)
      modifies this
      ensures verdict == Check(max, ExistingQuantity(items, productId), old(qty))
      ensures requested == if verdict == Accepted then Some(old(qty)) else None
      ensures old(localInput) == Some("") ==> !hasUserInput && qty == old(qty)
      ensures old(localInput).Some? && old(localInput) != Some("") ==>
        qty == TypedValue(old(localInput).value, 1, max) && hasUserInput == old(hasUserInput)
      ensures old(localInput).None? ==> qty == old(qty) && hasUserInput == old(hasUserInput)
      ensures localInput == old(localInput) && lastDeps == old(lastDeps)
      ensures !loading
    {
      var rendered := qty;
      OnBlur();
      verdict := Check(max, ExistingQuantity(items, productId), rendered);
      requested := if verdict == Accepted then Some(rendered) else None;
      loading := false;
    }
  }
}
