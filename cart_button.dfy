/**
 * The floating cart button (src/components/cart-button.tsx): the unit-count badge, the
 * small "scrolling down" nudge, and hiding itself while an add-to-cart control is open.
 */
module CartButton {
  import opened Wrappers
  import opened Json
  import opened CartProvider
  import CartDrawer

  /** `totalQty > 0 && <span>{totalQty}</span>`: the badge, shown only for a positive count. */
  function Badge(items: seq<CartItem>): (b: Option<int>)
    ensures b.Some? <==> TotalQuantity(items) > 0
    ensures b.Some? ==> b.value == TotalQuantity(items)
  {
    var total := TotalQuantity(items);
    if total > 0 then Some(total) else None
  }

  /** With at least one unit per entry, the count is at least the number of entries. */
  lemma {:induction false} TotalAtLeastEntries(items: seq<CartItem>)
    requires CartDrawer.AllPositive(items)
    ensures TotalQuantity(items) >= |items|
    decreases |items|
  {
    if items != [] {
      TotalAtLeastEntries(items[..|items| - 1]);
    }
  }

  /** In a cart whose entries all hold a unit or more, the badge shows exactly when the cart is not empty. */
  lemma BadgeIffNonEmpty(items: seq<CartItem>)
    requires CartDrawer.AllPositive(items)
    ensures Badge(items).Some? <==> items != []
  {
    TotalAtLeastEntries(items);
  }

  /** `y > lastY && y > 20`: moving down, ignoring small moves near the top of the page. */
  predicate GoingDown(y: int, lastY: int) { y > lastY && y > 20 }

  /** What the component renders. */
  datatype View =
    | Placeholder
    | Button(scrollingDown: bool, badge: Option<int>, hidden: bool)

  class CartButtonView {
    /** The `autoHide` prop (true by default). */
    const autoHide: bool
    var mounted: bool
    var isScrollingDown: bool
    /** The `lastY` ref: the scroll position seen by the previous scroll event. */
    var lastY: int
    /** `visibility: hidden` set on the button by a toggle event. */
    var hidden: bool
    /** How many times the scroll handler has set `isScrollingDown`. */
    ghost var stateWrites: nat

    constructor(autoHide: bool, scrollY: int)
      ensures this.autoHide == autoHide && !mounted && !isScrollingDown && !hidden
      ensures lastY == scrollY && stateWrites == 0
    {
      this.autoHide := autoHide;
      mounted := false;
      isScrollingDown := false;
      lastY := scrollY;
      hidden := false;
      stateWrites := 0;
    }

    /** The mount effect. */
    method Mount()
      modifies this
      ensures mounted
      ensures isScrollingDown == old(isScrollingDown) && lastY == old(lastY) && hidden == old(hidden)
      ensures stateWrites == old(stateWrites)
    {
      mounted := true;
    }

    /**
     * The scroll handler: the direction flag follows `GoingDown`, is written only when it
     * changes, and the position is remembered for the next event.
     */
    method OnScroll(y: int)
      modifies this
      ensures isScrollingDown == GoingDown(y, old(lastY))
      ensures lastY == y
      ensures stateWrites == old(stateWrites) + (if GoingDown(y, old(lastY)) != old(isScrollingDown) then 1 else 0)
      ensures mounted == old(mounted) && hidden == old(hidden)
    {
      var goingDown := y > lastY && y > 20;
      if goingDown != isScrollingDown {
        isScrollingDown := goingDown;
        stateWrites := stateWrites + 1;
      }
      lastY := y;
    }

    /**
     * The `jjs_cart_control_toggle` handler: a falsy detail is ignored, and so is any event
     * before the button is rendered; otherwise, with `autoHide`, the button is hidden
     * exactly while the control reports itself open.
     */
    method OnControlToggle(detail: Json)
      modifies this
      ensures Truthy(detail) && mounted && autoHide ==> hidden == OptTruthy(Member(detail, "open"))
      ensures !Truthy(detail) || !mounted || !autoHide ==> hidden == old(hidden)
      ensures mounted == old(mounted) && isScrollingDown == old(isScrollingDown) && lastY == old(lastY)
      ensures stateWrites == old(stateWrites)
    {
      if !Truthy(detail) {
        return;
      }
      var open := OptTruthy(Member(detail, "open"));
      if !mounted {
        return;
      }
      if autoHide {
        hidden := open;
      }
    }

    /** The placeholder before mount; afterwards the button with its badge. */
    function Render(items: seq<CartItem>): (v: View)
      reads this
      ensures v.Placeholder? <==> !mounted
      ensures v.Button? ==> v.badge == Badge(items) && v.hidden == hidden
    {
      if !mounted then Placeholder else Button(isScrollingDown, Badge(items), hidden)
    }
  }
}
