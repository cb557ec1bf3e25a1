/**
 * The cart drawer (src/components/cart-drawer.tsx): the list of cart entries with a
 * quantity box and a remove button each, the header count, the money total, the
 * "empty the cart" button and the checkout button that opens the checkout dialog with
 * the first entry's store.
 */
module CartDrawer {
  import opened Wrappers
  import opened Types
  import opened Text
  import opened QtySelector
  import opened CartProvider
  import opened UseCheckoutModal
  import CheckoutModal

  /** `Number(product.price) || 0`: a missing price and text that is not a number count as 0. */
  function PriceValue(p: Product): (r: int)
    ensures p.price.None? ==> r == 0
    ensures p.price.Some? && NumberOf(p.price.value).Some? ==> r == NumberOf(p.price.value).value
    ensures p.price.Some? && NumberOf(p.price.value).None? ==> r == 0
  {
    match p.price
    case None => 0
    case Some(s) => NumberOf(s).GetOr(0)
  }

  /** `items.reduce((s, i) => s + price(i) * i.quantity, 0)`, accumulated from the first entry. */
  function Total(items: seq<CartItem>): int {
    if items == [] then 0 else Total(items[..|items| - 1]) + LineTotal(items[|items| - 1])
  }

  /** One entry's share of the total: its price times its quantity. */
  function LineTotal(it: CartItem): int {
    PriceValue(it.product) * it.quantity
  }

  /** The total of two carts laid end to end is the sum of their totals. */
  lemma {:induction false} TotalAppend(a: seq<CartItem>, b: seq<CartItem>)
    ensures Total(a + b) == Total(a) + Total(b)
    decreases |b|
  {
    if b == [] {
      assert a + b == a;
    } else {
      assert (a + b)[..|a + b| - 1] == a + b[..|b| - 1];
      TotalAppend(a, b[..|b| - 1]);
    }
  }

  /** Changing one entry's quantity changes the total by that entry's price times the difference. */
  lemma {:induction false} TotalUpdate(items: seq<CartItem>, i: nat, q: int)
    requires i < |items|
    ensures Total(items[i := items[i].(quantity := q)])
         == Total(items) - LineTotal(items[i]) + LineTotal(items[i].(quantity := q))
    decreases |items|
  {
    var r := items[i := items[i].(quantity := q)];
    var n := |items| - 1;
    if i < n {
      assert r[..n] == items[..n][i := items[i].(quantity := q)];
      assert r[n] == items[n];
      TotalUpdate(items[..n], i, q);
    } else {
      assert r[..n] == items[..n];
    }
  }

  /** An entry's share moves by its price for every unit added or taken away. */
  lemma LineTotalUpdate(it: CartItem, q: int)
    ensures LineTotal(it.(quantity := q)) == LineTotal(it) + PriceValue(it.product) * (q - it.quantity)
  {
    Scale(PriceValue(it.product), it.quantity, q);
  }

  lemma Scale(p: int, a: int, b: int)
    ensures p * b == p * a + p * (b - a)
  {
  }

  /** With one entry per product, `updateQty` is an update of the product's single entry. */
  lemma WithQtyIsUpdate(items: seq<CartItem>, id: string, q: int) returns (i: nat)
    requires UniqueIds(items) && HasId(items, id)
    ensures i < |items| && items[i].product.id == id
    ensures WithQty(items, id, q) == items[i := items[i].(quantity := q)]
  {
    i := FindIndex(items, id).value;
    var r := WithQty(items, id, q);
    assert forall j :: 0 <= j < |items| && j != i ==> items[j].product.id != id;
  }

  /**
   * Editing a product's quantity in a cart with one entry per product moves the total by
   * the product's price times the change; an edit of an absent id leaves it alone.
   */
  lemma {:induction false} TotalAfterEdit(items: seq<CartItem>, id: string, q: int)
    requires UniqueIds(items)
    ensures HasId(items, id) ==>
      exists i :: 0 <= i < |items| && items[i].product.id == id
        && Total(WithQty(items, id, q)) == Total(items) + PriceValue(items[i].product) * (q - items[i].quantity)
    ensures !HasId(items, id) ==> Total(WithQty(items, id, q)) == Total(items)
  {
    UpdateQtyEffect(items, id, q);
    if HasId(items, id) {
      var i := WithQtyIsUpdate(items, id, q);
      TotalUpdate(items, i, q);
      LineTotalUpdate(items[i], q);
    }
  }

  /** Removing a product takes its entries' value out of the total and keeps the rest. */
  lemma {:induction false} TotalAfterRemove(items: seq<CartItem>, id: string)
    ensures Total(WithoutId(items, id)) == Total(items) - ValueOf(items, id)
    decreases |items|
  {
    if items != [] {
      var last := items[|items| - 1];
      var init := items[..|items| - 1];
      assert items == init + [last];
      RemoveAppend(init, [last], id);
      TotalAppend(WithoutId(init, id), WithoutId([last], id));
      TotalAfterRemove(init, id);
      assert [last][..0] == [];
      if last.product.id == id {
        assert WithoutId([last], id) == [];
      } else {
        assert WithoutId([last], id) == [last];
      }
    }
  }

  /** The part of the total contributed by the entries of product `id`. */
  function ValueOf(items: seq<CartItem>, id: string): int {
    if items == [] then 0
    else
      var last := items[|items| - 1];
      ValueOf(items[..|items| - 1], id) + (if last.product.id == id then LineTotal(last) else 0)
  }

  /** Every entry holds at least one unit. */
  predicate AllPositive(items: seq<CartItem>) {
    forall i :: 0 <= i < |items| ==> items[i].quantity >= 1
  }

  /** `Math.max(1, Number(text) || 1)`: the quantity box never stores less than one. */
  function EditedQuantity(text: string): (r: int)
    ensures r >= 1
    ensures NumberOf(text).Some? && NumberOf(text).value >= 1 ==> r == NumberOf(text).value
    ensures NumberOf(text).None? || NumberOf(text).value < 1 ==> r == 1
  {
    var n := NumberOf(text);
    Max(1, if n.Some? && n.value != 0 then n.value else 1)
  }

  /** Typing the printed form of a positive quantity stores that quantity. */
  lemma EditedPrinted(k: int)
    requires k >= 1
    ensures EditedQuantity(IntToString(k)) == k
  {
    NumberOfIntToString(k);
  }

  /** Quantity edits keep every entry at one unit or more. */
  lemma EditKeepsPositive(items: seq<CartItem>, id: string, text: string)
    requires AllPositive(items)
    ensures AllPositive(WithQty(items, id, EditedQuantity(text)))
  {
  }

  /**
   * `storeId ? { storeId } : undefined` with the first entry's store id: the dialog is
   * told the store only when the first entry has a non-empty one.
   */
  function CheckoutDataFor(items: seq<CartItem>): (d: Option<CheckoutData>)
    ensures d.Some? <==> items != [] && CheckoutModal.HasStoreId(items[0].product.storeId)
    ensures d.Some? ==> d.value == CheckoutData(None, None, None, None, items[0].product.storeId)
  {
    if items != [] && CheckoutModal.HasStoreId(items[0].product.storeId)
    then Some(CheckoutData(None, None, None, None, items[0].product.storeId))
    else None
  }

  /** The dialog's store id is the first entry's store id whenever that one is usable. */
  lemma DrawerPassesStore(items: seq<CartItem>)
    ensures CheckoutModal.HasStoreId(CheckoutModal.StoreIdOf(CheckoutDataFor(items)))
        <==> items != [] && CheckoutModal.HasStoreId(items[0].product.storeId)
    ensures items != [] && CheckoutModal.HasStoreId(items[0].product.storeId) ==>
      CheckoutModal.StoreIdOf(CheckoutDataFor(items)) == items[0].product.storeId
  {
  }

  /** The drawer's view of the shared cart and the shared checkout-dialog state. */
  class CartDrawerView {
    const cart: Cart
    const checkout: CheckoutModalStore

    ghost predicate Valid()
      reads this, cart
    {
      cart.Valid()
    }

    constructor(cart: Cart, checkout: CheckoutModalStore)
      requires cart.Valid()
      ensures Valid() && this.cart == cart && this.checkout == checkout
    {
      this.cart := cart;
      this.checkout := checkout;
    }

    /** The header's `Keranjang (n)`: the number of entries, not of units. */
    function HeaderCount(): (n: nat)
      reads this, cart
      ensures n == |Ids(cart.items)|
    {
      |cart.items|
    }

    /** The total shown at the bottom. */
    function ShownTotal(): int
      reads this, cart
    {
      Total(cart.items)
    }

    method OnQuantityEdit(id: string, text: string)
      requires Valid()
      modifies cart
      ensures Valid()
      ensures cart.items == WithQty(old(cart.items), id, EditedQuantity(text))
      ensures AllPositive(old(cart.items)) ==> AllPositive(cart.items)
    {
      cart.UpdateQty(id, EditedQuantity(text));
    }

    method OnRemove(id: string)
      requires Valid()
      modifies cart
      ensures Valid()
      ensures cart.items == WithoutId(old(cart.items), id)
      ensures ShownTotal() == old(ShownTotal()) - ValueOf(old(cart.items), id)
    {
      TotalAfterRemove(cart.items, id);
      cart.Remove(id);
    }

    method OnClear()
      requires Valid()
      modifies cart
      ensures Valid()
      ensures cart.items == [] && HeaderCount() == 0 && ShownTotal() == 0
    {
      cart.Clear();
    }

    /** The checkout button: opens the dialog with the first entry's store, if any. */
    method OnCheckout()
      requires Valid()
      modifies checkout
      ensures Valid()
      ensures checkout.isOpen && checkout.data == CheckoutDataFor(cart.items)
    {
      checkout.OnOpen(CheckoutDataFor(cart.items));
    }
  }
}
