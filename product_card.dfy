/**
 * The product card of the catalogue grid (src/components/ui/product-card.tsx): its
 * add-to-cart control is bounded by the product's stock, and its add checks the stock
 * against the cart before adding.
 */
module ProductCard {
  import opened Wrappers
  import opened Json
  import opened Types
  import opened QtySelector
  import opened CartProvider
  import opened StockGuard
  import opened AddToCart

  /** The card's stock: `quantity ?? 0`. */
  function CardStock(p: Product): int { p.quantity.GetOr(0) }

  /**
   * Any quantity the card's control can hold passes the stock check for a product that
   * is in stock and not yet in the cart; a product with no stock refuses every add.
   */
  lemma ControlBoundsMatchGuard(p: Product, q: int, existing: int)
    ensures CardStock(p) > 0 && InRange(q, 1, Some(CardStock(p))) ==> Check(Some(CardStock(p)), 0, q) == Accepted
    ensures CardStock(p) <= 0 ==> Check(Some(CardStock(p)), existing, q) == OutOfStock
  {
  }

  class ProductCardView {
    const cart: Cart
    const data: Product
    const control: AddToCartControl
    var cartDrawerOpen: bool

    ghost predicate Valid()
      reads this, cart
    {
      cart.Valid()
    }

    /** The control starts at 1 and is bounded by `[1, quantity ?? 0]`. */
    constructor(cart: Cart, data: Product)
      requires cart.Valid()
      ensures Valid() && this.cart == cart && this.data == data && fresh(control)
      ensures control.value == 1 && control.min == 1 && control.max == Some(CardStock(data))
      ensures !cartDrawerOpen
    {
      this.cart := cart;
      this.data := data;
      control := new AddToCartControl(1, Some(1), Some(data.quantity.GetOr(0)));
      cartDrawerOpen := false;
    }

    /** `onAddToCart`: the stock check with the control's quantity, then `cart.add` when it passes. */
    method OnAddToCart() returns (v: Verdict)
      requires Valid()
      modifies cart
      ensures Valid()
      ensures v == Check(Some(CardStock(data)), ExistingQuantity(old(cart.items), data.id), control.value)
      ensures cart.items == GuardedAdd(old(cart.items), data, Some(CardStock(data)), control.value)
    {
      v := Check(Some(data.quantity.GetOr(0)), ExistingQuantity(cart.items, data.id), control.value);
      if v == Accepted {
        cart.Add(data, control.value);
      }
    }

    /** The control's add button: the card's add, then the control collapses. */
    method ClickAdd() returns (v: Verdict)
      requires Valid()
      modifies cart, control
      ensures Valid()
      ensures v == Check(Some(CardStock(data)), ExistingQuantity(old(cart.items), data.id), old(control.value))
      ensures cart.items == GuardedAdd(old(cart.items), data, Some(CardStock(data)), old(control.value))
      ensures ExistingQuantity(old(cart.items), data.id) <= CardStock(data) ==>
        ExistingQuantity(cart.items, data.id) <= CardStock(data)
      ensures control.clicked && !control.expanded && control.value == old(control.value)
    {
      v := OnAddToCart();
      if ExistingQuantity(old(cart.items), data.id) <= CardStock(data) {
        GuardKeepsCartWithinStock(old(cart.items), data, CardStock(data), old(control.value), data.id);
      }
      control.HandleAdd();
    }

    /**
     * The cart drawer's open/close broadcast: a missing detail is ignored. The control is
     * rendered only while the drawer is closed, so when the drawer opens over a visible
     * control that control is unmounted and its local state is lost; it comes back with
     * fresh state, holding only the card's quantity.
     */
    method OnDrawerToggle(detail: Json)
      modifies this, control
      ensures cartDrawerOpen == if Truthy(detail) then OptTruthy(Member(detail, "open")) else old(cartDrawerOpen)
      ensures control.value == old(control.value)
      ensures !old(cartDrawerOpen) && cartDrawerOpen ==>
        !control.expanded && control.localInput == None && !control.hasUserInput
        && !control.clicked && control.lastDeps == None
      ensures old(cartDrawerOpen) || !cartDrawerOpen ==>
        control.expanded == old(control.expanded) && control.localInput == old(control.localInput)
        && control.hasUserInput == old(control.hasUserInput) && control.clicked == old(control.clicked)
        && control.lastDeps == old(control.lastDeps)
    {
      if Truthy(detail) {
        var wasOpen := cartDrawerOpen;
        cartDrawerOpen := OptTruthy(Member(detail, "open"));
        if !wasOpen && cartDrawerOpen {
          control.Remount();
        }
      }
    }

    /** The add-to-cart control is hidden while the cart drawer is open. */
    predicate ControlVisible()
      reads this
    {
      !cartDrawerOpen
    }
  }
}
