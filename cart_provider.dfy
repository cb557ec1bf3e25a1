/**
 * The shopping cart (src/providers/cart-provider.tsx): an ordered list of
 * `{product, quantity}` entries, the four updaters the provider exposes, and the
 * copy of the cart kept in the browser's local storage.
 */
module CartProvider {
  import opened Wrappers
  import opened Types

  datatype CartItem = CartItem(product: Product, quantity: int)

  /** The local-storage key the cart is saved under. */
  const StorageKey := "jjs_cart_v1"

  /** The product ids of the entries, in cart order. */
  function Ids(items: seq<CartItem>): (ids: seq<string>)
    ensures |ids| == |items|
    ensures forall i :: 0 <= i < |items| ==> ids[i] == items[i].product.id
  {
    seq(|items|, i requires 0 <= i < |items| => items[i].product.id)
  }

  /** At most one entry per product id. */
  predicate UniqueIds(items: seq<CartItem>) {
    forall i, j :: 0 <= i < j < |items| ==> items[i].product.id != items[j].product.id
  }

  predicate HasId(items: seq<CartItem>, id: string) {
    exists i :: 0 <= i < |items| && items[i].product.id == id
  }

  /** `items.findIndex(i => i.product.id === id)`, with `None` for -1. */
  function FindIndex(items: seq<CartItem>, id: string): (r: Option<nat>)
    ensures r.Some? <==> HasId(items, id)
    ensures r.Some? ==> r.value < |items| && items[r.value].product.id == id
    ensures r.Some? ==> forall j :: 0 <= j < r.value ==> items[j].product.id != id
  {
    if items == [] then None
    else if items[0].product.id == id then Some(0)
    else
      var rest := FindIndex(items[1..], id);
      assert forall j :: 1 <= j < |items| ==> items[j] == items[1..][j - 1];
      if rest.None? then None else Some(rest.value + 1)
  }

  /** Entries with the same ids in the same order are searched alike. */
  lemma {:induction false} FindIndexOfIds(a: seq<CartItem>, b: seq<CartItem>, id: string)
    requires Ids(a) == Ids(b)
    ensures FindIndex(a, id) == FindIndex(b, id)
    decreases |a|
  {
    if a != [] {
      assert a[0].product.id == Ids(a)[0] == Ids(b)[0] == b[0].product.id;
      assert Ids(a[1..]) == Ids(a)[1..] == Ids(b)[1..] == Ids(b[1..]);
      FindIndexOfIds(a[1..], b[1..], id);
    }
  }

  /**
   * `items.find(i => i.product.id === id)?.quantity ?? 0`: the quantity of the product
   * already in the cart, as the add-to-cart guards read it.
   */
  function ExistingQuantity(items: seq<CartItem>, id: string): (q: int)
    ensures !HasId(items, id) ==> q == 0
    ensures HasId(items, id) ==> exists i :: 0 <= i < |items| && items[i].product.id == id && q == items[i].quantity
  {
    match FindIndex(items, id)
    case Some(i) => items[i].quantity
    case None => 0
  }

  /** The number of units in the cart (the sum of the quantities). */
  function TotalQuantity(items: seq<CartItem>): int {
    if items == [] then 0 else TotalQuantity(items[..|items| - 1]) + items[|items| - 1].quantity
  }

  lemma {:induction false} TotalQuantityUpdate(items: seq<CartItem>, i: nat, q: int)
    requires i < |items|
    ensures TotalQuantity(items[i := items[i].(quantity := q)])
         == TotalQuantity(items) - items[i].quantity + q
    decreases |items|
  {
    var r := items[i := items[i].(quantity := q)];
    if i < |items| - 1 {
      assert r[..|r| - 1] == items[..|items| - 1][i := items[i].(quantity := q)];
      TotalQuantityUpdate(items[..|items| - 1], i, q);
    } else {
      assert r[..|r| - 1] == items[..|items| - 1];
    }
  }

  lemma {:induction false} TotalQuantityAppend(a: seq<CartItem>, b: seq<CartItem>)
    ensures TotalQuantity(a + b) == TotalQuantity(a) + TotalQuantity(b)
    decreases |b|
  {
    if b != [] {
      assert (a + b)[..|a + b| - 1] == a + b[..|b| - 1];
      TotalQuantityAppend(a, b[..|b| - 1]);
    } else {
      assert a + b == a;
    }
  }

  // ------------------------------------------------------------------ add

  /**
   * `add(product, qty)`: a product already in the cart gets `qty` more units on its
   * first entry, which keeps the product snapshot it was added with; any other product
   * is appended as a new entry.
   */
  function WithAdded(items: seq<CartItem>, product: Product, qty: int): (r: seq<CartItem>)
    ensures HasId(items, product.id) ==> Ids(r) == Ids(items)
    ensures HasId(items, product.id) ==>
      forall j :: 0 <= j < |items| ==> r[j].product == items[j].product
    ensures HasId(items, product.id) ==>
      forall j :: 0 <= j < |items| && items[j].product.id != product.id ==> r[j] == items[j]
    ensures !HasId(items, product.id) ==> r == items + [CartItem(product, qty)]
    ensures TotalQuantity(r) == TotalQuantity(items) + qty
  {
    match FindIndex(items, product.id)
    case Some(i) =>
      var q := items[i].quantity + qty;
      var r := items[i := items[i].(quantity := q)];
      TotalQuantityUpdate(items, i, q);
      assert TotalQuantity(r) == TotalQuantity(items) + qty;
      r
    case None =>
      var n := CartItem(product, qty);
      TotalQuantityAppend(items, [n]);
      assert [n][..0] == [];
      assert TotalQuantity([n]) == qty;
      assert TotalQuantity(items + [n]) == TotalQuantity(items) + qty;
      items + [n]
  }

  /** Adding raises the cart quantity of that product by exactly `qty` and of no other product. */
  lemma AddExistingQuantity(items: seq<CartItem>, product: Product, qty: int, id: string)
    ensures ExistingQuantity(WithAdded(items, product, qty), id)
         == ExistingQuantity(items, id) + (if id == product.id then qty else 0)
  {
    var r := WithAdded(items, product, qty);
    if HasId(items, product.id) {
      FindIndexOfIds(r, items, id);
    } else {
      var n := CartItem(product, qty);
      assert r == items + [n];
      if HasId(items, id) {
        var k := FindIndex(items, id).value;
        assert r[k] == items[k];
        assert forall j :: 0 <= j < k ==> r[j] == items[j];
        FindIndexPrefix(r, id, k);
      } else if id == product.id {
        assert r[|items|].product.id == id;
        assert forall j :: 0 <= j < |items| ==> r[j] == items[j];
        FindIndexPrefix(r, id, |items|);
      } else {
        assert forall j :: 0 <= j < |r| ==> r[j].product.id != id by {
          assert forall j :: 0 <= j < |items| ==> r[j] == items[j];
        }
      }
    }
  }

  /** The first entry with `id` is at `k`. */
  lemma FindIndexPrefix(items: seq<CartItem>, id: string, k: nat)
    requires k < |items| && items[k].product.id == id
    requires forall j :: 0 <= j < k ==> items[j].product.id != id
    ensures FindIndex(items, id) == Some(k)
  {
  }

  /** Adding keeps the cart at one entry per product. */
  lemma AddKeepsUnique(items: seq<CartItem>, product: Product, qty: int)
    requires UniqueIds(items)
    ensures UniqueIds(WithAdded(items, product, qty))
  {
    var r := WithAdded(items, product, qty);
    if HasId(items, product.id) {
      assert forall i :: 0 <= i < |r| ==> r[i].product.id == Ids(r)[i] == Ids(items)[i];
    } else {
      assert forall i :: 0 <= i < |items| ==> r[i] == items[i];
    }
  }

  // --------------------------------------------------------------- remove

  /** `remove(id)`: keeps, in order, every entry whose product id is not `id`. */
  function WithoutId(items: seq<CartItem>, id: string): (r: seq<CartItem>)
    ensures !HasId(r, id)
    ensures forall e :: e in r <==> e in items && e.product.id != id
    ensures |r| <= |items|
  {
    if items == [] then []
    else
      var rest := WithoutId(items[1..], id);
      assert forall e :: e in items <==> e == items[0] || e in items[1..];
      (if items[0].product.id == id then [] else [items[0]]) + rest
  }

  /** Removing an id that is not in the cart changes nothing. */
  lemma {:induction false} RemoveAbsent(items: seq<CartItem>, id: string)
    requires !HasId(items, id)
    ensures WithoutId(items, id) == items
    decreases |items|
  {
    if items != [] {
      assert items[0].product.id != id;
      assert !HasId(items[1..], id) by {
        assert forall j :: 0 <= j < |items| - 1 ==> items[1..][j] == items[j + 1];
      }
      RemoveAbsent(items[1..], id);
      assert items == [items[0]] + items[1..];
    }
  }

  /** Removal works entry by entry, so the kept entries stay in their original order. */
  lemma {:induction false} RemoveAppend(a: seq<CartItem>, b: seq<CartItem>, id: string)
    ensures WithoutId(a + b, id) == WithoutId(a, id) + WithoutId(b, id)
    decreases |a|
  {
    if a == [] {
      assert a + b == b;
    } else {
      assert (a + b)[1..] == a[1..] + b;
      RemoveAppend(a[1..], b, id);
    }
  }

  /** In a cart with one entry per product, removal takes away exactly that product's units. */
  lemma {:induction false} RemoveTotal(items: seq<CartItem>, id: string)
    requires UniqueIds(items)
    ensures TotalQuantity(WithoutId(items, id)) == TotalQuantity(items) - ExistingQuantity(items, id)
    decreases |items|
  {
    if items != [] {
      var last := items[|items| - 1];
      var init := items[..|items| - 1];
      assert items == init + [last];
      RemoveAppend(init, [last], id);
      assert WithoutId([last], id) == if last.product.id == id then [] else [last];
      TotalQuantityAppend(WithoutId(init, id), WithoutId([last], id));
      assert TotalQuantity([last]) == last.quantity;
      assert TotalQuantity([]) == 0;
      RemoveTotal(init, id);
      ExistingQuantityLast(init, last, id);
    }
  }

  /** The units of `id` in a cart with one entry per product, read off its last entry and the rest. */
  lemma ExistingQuantityLast(init: seq<CartItem>, last: CartItem, id: string)
    requires UniqueIds(init + [last])
    ensures ExistingQuantity(init + [last], id)
         == ExistingQuantity(init, id) + (if last.product.id == id then last.quantity else 0)
  {
    var items := init + [last];
    assert forall j :: 0 <= j < |init| ==> items[j] == init[j];
    if last.product.id == id {
      assert forall j :: 0 <= j < |init| ==> init[j].product.id != id by {
        assert forall j :: 0 <= j < |init| ==> items[j].product.id != items[|init|].product.id;
      }
      FindIndexPrefix(items, id, |init|);
    } else if HasId(init, id) {
      var k := FindIndex(init, id).value;
      FindIndexPrefix(items, id, k);
    } else {
      assert forall j :: 0 <= j < |items| ==> items[j].product.id != id;
    }
  }

  // ------------------------------------------------------------ updateQty

  /** `updateQty(id, q)`: every entry for `id` gets quantity `q` exactly as given. */
  function WithQty(items: seq<CartItem>, id: string, q: int): (r: seq<CartItem>)
    ensures Ids(r) == Ids(items)
    ensures forall i :: 0 <= i < |r| ==> r[i].product == items[i].product
    ensures forall i :: 0 <= i < |r| && items[i].product.id != id ==> r[i] == items[i]
    ensures forall i :: 0 <= i < |r| && items[i].product.id == id ==> r[i].quantity == q
  {
    seq(|items|, i requires 0 <= i < |items| =>
      if items[i].product.id == id then items[i].(quantity := q) else items[i])
  }

  /** After `updateQty(id, q)` the cart holds `q` of a present product; an absent id is a no-op. */
  lemma UpdateQtyEffect(items: seq<CartItem>, id: string, q: int)
    ensures HasId(items, id) ==> ExistingQuantity(WithQty(items, id, q), id) == q
    ensures !HasId(items, id) ==> WithQty(items, id, q) == items
    ensures UniqueIds(items) ==> UniqueIds(WithQty(items, id, q))
  {
    var r := WithQty(items, id, q);
    FindIndexOfIds(r, items, id);
    assert forall i :: 0 <= i < |r| ==> r[i].product.id == items[i].product.id;
  }

  // --------------------------------------------------------------- storage

  /** What local storage holds under the cart key when the provider mounts. */
  datatype StoredCart = NoCart | Unreadable | StoredItems(items: seq<CartItem>)

  /**
   * The cart store. `saved` is the copy of the cart last written to local storage;
   * when storage is unavailable (reads and writes throw) the errors are swallowed and
   * nothing is ever written.
   */
  class Cart {
    var items: seq<CartItem>
    var saved: Option<seq<CartItem>>
    const storageAvailable: bool

    /** Every change of `items` is followed by a save of the whole array. */
    ghost predicate Valid()
      reads this
    {
      saved == (if storageAvailable then Some(items) else None)
    }

    /**
     * Mounting: the cart starts empty, the load effect replaces it with a stored cart
     * that reads and parses, and the save effect writes the result back.
     */
    constructor(storageAvailable: bool, stored: StoredCart)
      ensures Valid()
      ensures this.storageAvailable == storageAvailable
      ensures storageAvailable && stored.StoredItems? ==> items == stored.items
      ensures !storageAvailable || !stored.StoredItems? ==> items == []
    {
      this.storageAvailable := storageAvailable;
      items := if storageAvailable && stored.StoredItems? then stored.items else [];
      saved := if storageAvailable then Some(if stored.StoredItems? then stored.items else []) else None;
    }

    method Add(product: Product, qty: int)
      requires Valid()
      modifies this
      ensures Valid()
      ensures items == WithAdded(old(items), product, qty)
    {
      items := WithAdded(items, product, qty);
      Save();
    }

    /** `add(product)` with the default quantity of one. */
    method AddOne(product: Product)
      requires Valid()
      modifies this
      ensures Valid()
      ensures items == WithAdded(old(items), product, 1)
    {
      Add(product, 1);
    }

    method Remove(id: string)
      requires Valid()
      modifies this
      ensures Valid()
      ensures items == WithoutId(old(items), id)
    {
      items := WithoutId(items, id);
      Save();
    }

    method Clear()
      requires Valid()
      modifies this
      ensures Valid()
      ensures items == []
    {
      items := [];
      Save();
    }

    method UpdateQty(id: string, q: int)
      requires Valid()
      modifies this
      ensures Valid()
      ensures items == WithQty(old(items), id, q)
    {
      items := WithQty(items, id, q);
      Save();
    }

    /** The save effect: writes the whole cart, ignoring a storage failure. */
    method Save()
      requires !storageAvailable ==> saved == None
      modifies this
      ensures Valid()
      ensures items == old(items)
    {
      if storageAvailable {
        saved := Some(items);
      }
    }
  }
}
