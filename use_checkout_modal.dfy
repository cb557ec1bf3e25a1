/**
 * The global open/closed state of the checkout dialog
 * (src/hooks/use-checkout-modal.tsx): whether it is open, and the data it was opened with.
 */
module UseCheckoutModal {
  import opened Wrappers

  /** What a caller may hand to the dialog when opening it. */
  datatype CheckoutData = CheckoutData(
    address: Option<string>,
    phone: Option<string>,
    paymentMethod: Option<string>,
    shippingMethod: Option<string>,
    storeId: Option<string>)

  datatype ModalState = ModalState(isOpen: bool, data: Option<CheckoutData>)

  /** The state the store is created with. */
  const Initial := ModalState(false, None)

  /** The state after `onOpen(d)`. */
  function Opened(s: ModalState, d: Option<CheckoutData>): ModalState {
    ModalState(true, d)
  }

  /** The state after `onClose()`. */
  function Closed(s: ModalState): ModalState {
    s.(isOpen := false)
  }

  /** Opening forgets whatever the dialog was opened with before, even when `d` is missing. */
  lemma OpenReplacesData(s: ModalState, t: ModalState, d: Option<CheckoutData>)
    ensures Opened(s, d) == Opened(t, d)
    ensures Opened(s, d).isOpen && Opened(s, d).data == d
  {
  }

  /** Opening twice with the same data is the same as opening once; so is closing twice. */
  lemma OpenCloseIdempotent(s: ModalState, d: Option<CheckoutData>)
    ensures Opened(Opened(s, d), d) == Opened(s, d)
    ensures Closed(Closed(s)) == Closed(s)
  {
  }

  /** Closing keeps the data, so opening, closing and reading back gives the data opened with. */
  lemma CloseKeepsData(s: ModalState, d: Option<CheckoutData>)
    ensures !Closed(Opened(s, d)).isOpen
    ensures Closed(Opened(s, d)).data == d
  {
  }

  class CheckoutModalStore {
    var isOpen: bool
    var data: Option<CheckoutData>

    function State(): ModalState
      reads this
    {
      ModalState(isOpen, data)
    }

    constructor()
      ensures State() == Initial
    {
      isOpen := false;
      data := None;
    }

    method OnOpen(d: Option<CheckoutData>)
      modifies this
      ensures isOpen && data == d
      ensures State() == Opened(old(State()), d)
    {
      isOpen := true;
      data := d;
    }

    method OnClose()
      modifies this
      ensures !isOpen && data == old(data)
      ensures State() == Closed(old(State()))
    {
      isOpen := false;
    }
  }
}
