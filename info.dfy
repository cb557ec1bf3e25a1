/**
 * The product detail panel (src/components/info.tsx): it shows the stock with a
 * sold-out or low-stock label, and adds to the cart through the quantity panel after
 * checking the stock again.
 */
module Info {
  import opened Wrappers
  import opened Types
  import opened CartProvider
  import opened StockGuard
  import opened CartQuantityPanel

  const LowStockThreshold := 5

  /** `quantity ?? stock ?? 0` */
  function Available(p: Product): (a: int)
    ensures p.quantity.Some? ==> a == p.quantity.value
    ensures p.quantity.None? && p.stock.Some? ==> a == p.stock.value
    ensures p.quantity.None? && p.stock.None? ==> a == 0
  {
    p.quantity.GetOr(p.stock.GetOr(0))
  }

  datatype StockLabel = SoldOut | LowStock | NoLabel

  /** "Habis" at or below zero, "Stok rendah" up to the threshold, nothing above it. */
  function Label(available: int): (l: StockLabel)
    ensures l == SoldOut <==> available <= 0
    ensures l == LowStock <==> 0 < available <= LowStockThreshold
    ensures l == NoLabel <==> available > LowStockThreshold
  {
    if available <= 0 then SoldOut
    else if available <= LowStockThreshold then LowStock
    else NoLabel
  }

  /** The quantity panel's stock as the page passes it: `quantity ?? 0`, without the `stock` fallback. */
  function PanelMaxAsWritten(p: Product): int { p.quantity.GetOr(0) }

  /** The panel's stock the page evidently means: the same stock it shows and checks. */
  function PanelMax(p: Product): int { Available(p) }

  /**
   * A product that has only `stock`: the page shows units in stock, yet the panel as
   * written refuses every add with "Stok habis" and never reaches the page's own add.
   */
  lemma AsWrittenPanelRefusesStockOnlyProduct(p: Product, existing: int, qty: int)
    requires p.quantity.None? && p.stock.Some? && p.stock.value > 0
    ensures Label(Available(p)) != SoldOut
    ensures Check(Some(PanelMaxAsWritten(p)), existing, qty) == OutOfStock
  {
  }

  /** A concrete product that shows the discrepancy: no `quantity`, `stock` 5. */
  lemma StockOnlyExample(id: string)
    ensures var p := Product(id, None, None, None, None, Some(5), map[]);
      Label(Available(p)) == LowStock && Check(Some(PanelMaxAsWritten(p)), 0, 1) == OutOfStock
  {
  }

  /**
   * With the corrected bound the panel refuses as sold out exactly when the page says
   * "Habis", and its check reaches the same verdict as the page's own add.
   */
  lemma PanelAgreesWithPage(p: Product, existing: int, qty: int)
    ensures Check(Some(PanelMax(p)), existing, qty) == OutOfStock <==> Label(Available(p)) == SoldOut
    ensures Check(Some(PanelMax(p)), existing, qty) == Check(Some(Available(p)), existing, qty)
    ensures p.quantity.Some? ==> PanelMax(p) == PanelMaxAsWritten(p)
  {
  }

  class ProductInfo {
    const cart: Cart
    const data: Product
    const panel: QuantityPanel

    ghost predicate Valid()
      reads this, cart
    {
      cart.Valid()
    }

    /** The panel starts at 1, for this product, bounded by the corrected stock. */
    constructor(cart: Cart, data: Product)
      requires cart.Valid()
      ensures Valid() && this.cart == cart && this.data == data && fresh(panel)
      ensures panel.productId == data.id && panel.initial == 1 && panel.qty == 1
      ensures panel.max == Some(PanelMax(data))
    {
      this.cart := cart;
      this.data := data;
      panel := new QuantityPanel(data.id, Some(1), Some(Available(data)));
    }

    /** `onAdd(qty)`: the stock check against `quantity ?? stock ?? 0`, then `cart.add` when it passes. */
    method OnAdd(qty: int) returns (v: Verdict)
      requires Valid()
      modifies cart
      ensures Valid()
      ensures v == Check(Some(Available(data)), ExistingQuantity(old(cart.items), data.id), qty)
      ensures cart.items == GuardedAdd(old(cart.items), data, Some(Available(data)), qty)
    {
      v := Check(Some(Available(data)), ExistingQuantity(cart.items, data.id), qty);
      if v == Accepted {
        cart.Add(data, qty);
      }
    }

    /**
     * The panel's add button: the panel's check, then the page's add with the panel's
     * quantity. The two checks agree, so the cart ends as one guarded add leaves it.
     */
    method ClickAdd() returns (v: Verdict)
      requires Valid() && panel.productId == data.id && panel.max == Some(PanelMax(data))
      modifies cart, panel
      ensures Valid()
      ensures v == Check(Some(Available(data)), ExistingQuantity(old(cart.items), data.id), old(panel.qty))
      ensures cart.items == GuardedAdd(old(cart.items), data, Some(Available(data)), old(panel.qty))
      ensures ExistingQuantity(old(cart.items), data.id) <= Available(data) ==>
        ExistingQuantity(cart.items, data.id) <= Available(data)
      ensures !panel.loading
    {
      var requested;
      v, requested := panel.HandleAdd(cart.items);
      if requested.Some? {
        v := OnAdd(requested.value);
      }
      if ExistingQuantity(old(cart.items), data.id) <= Available(data) {
        GuardKeepsCartWithinStock(old(cart.items), data, Available(data), old(panel.qty), data.id);
      }
    }
  }
}
