/**
 * The stock check the product card (src/components/ui/product-card.tsx), the detail
 * page (src/components/info.tsx) and the quantity panel
 * (src/components/ui/cart-quantity-panel.tsx) each perform before adding to the cart:
 * nothing when the stock is used up, nothing when the cart would hold more than the
 * stock, otherwise add. A missing `available` (`None`) is the panel's unbounded stock.
 */
module StockGuard {
  import opened Wrappers
  import opened Types
  import opened CartProvider

  datatype Verdict = OutOfStock | NotEnoughStock | Accepted

  const OutOfStockMessage := "Stok habis"
  const NotEnoughStockMessage := "Stok tidak cukup"

  /** The check, given the stock, the quantity already in the cart and the quantity asked for. */
  function Check(available: Option<int>, existing: int, qty: int): (v: Verdict)
    ensures v == OutOfStock <==> available.Some? && available.value <= 0
    ensures v == NotEnoughStock <==> available.Some? && available.value > 0 && existing + qty > available.value
    ensures v == Accepted ==> available.None? || existing + qty <= available.value
  {
    if available.Some? && available.value <= 0 then OutOfStock
    else if available.Some? && existing + qty > available.value then NotEnoughStock
    else Accepted
  }

  /** The cart after a guarded add: the product is added only when the check accepts. */
  function GuardedAdd(items: seq<CartItem>, product: Product, available: Option<int>, qty: int): (r: seq<CartItem>)
    ensures Check(available, ExistingQuantity(items, product.id), qty) != Accepted ==> r == items
  {
    if Check(available, ExistingQuantity(items, product.id), qty) == Accepted
    then WithAdded(items, product, qty)
    else items
  }

  /** Unbounded stock accepts every add. */
  lemma UnboundedAccepts(existing: int, qty: int)
    ensures Check(None, existing, qty) == Accepted
  {
  }

  /**
   * A guarded add never takes the cart's quantity of the product above the stock, and
   * an accepted add raises it by exactly `qty`, leaving every other product as it was.
   */
  lemma GuardKeepsCartWithinStock(items: seq<CartItem>, product: Product, available: int, qty: int, id: string)
    requires ExistingQuantity(items, product.id) <= available
    ensures ExistingQuantity(GuardedAdd(items, product, Some(available), qty), product.id) <= available
    ensures id != product.id ==>
      ExistingQuantity(GuardedAdd(items, product, Some(available), qty), id) == ExistingQuantity(items, id)
    ensures Check(Some(available), ExistingQuantity(items, product.id), qty) == Accepted ==>
      ExistingQuantity(GuardedAdd(items, product, Some(available), qty), product.id)
        == ExistingQuantity(items, product.id) + qty
  {
    if Check(Some(available), ExistingQuantity(items, product.id), qty) == Accepted {
      AddExistingQuantity(items, product, qty, product.id);
      AddExistingQuantity(items, product, qty, id);
    }
  }
}
