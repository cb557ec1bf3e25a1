/**
 * The collapsible add-to-cart control (src/components/ui/add-to-cart.tsx): a cart
 * button that expands into a stepper with a text field. The quantity belongs to the
 * parent, which stores whatever `onChange` hands it; the model keeps it as `value`.
 */
module AddToCart {
  import opened Wrappers
  import opened Text
  import opened QtySelector

  /**
   * What the sync effect puts in the field: nothing when collapsed; when expanded, an
   * empty placeholder while the value is the minimum and nothing was typed, otherwise
   * the value's text.
   */
  function SyncedInput(expanded: bool, value: int, min: int, hasUserInput: bool): (r: Option<string>)
    ensures r.None? <==> !expanded
    ensures r == Some("") <==> expanded && value == min && !hasUserInput
    ensures r.Some? && r.value != "" ==> NumberOf(r.value) == Some(value)
  {
    if !expanded then None
    else if value == min && !hasUserInput then Some("")
    else
      NumberOfIntToString(value);
      Some(IntToString(value))
  }

  /** The text in the field: the local text when expanded and set, the value otherwise. */
  function Shown(expanded: bool, localInput: Option<string>, value: int): string {
    if expanded && localInput.Some? then localInput.value else IntToString(value)
  }

  /**
   * `onChange` for typed text: only digits are kept; nothing left means no change,
   * otherwise the number (0 counts as `min`) clamped into the bounds.
   */
  function TypedChange(text: string, min: int, max: Option<int>): (r: Option<int>)
    ensures r.None? <==> DigitsOnly(text) == ""
    ensures r.Some? && Consistent(min, max) ==> InRange(r.value, min, max)
    ensures r.Some? ==> r.value == TypedValue(DigitsOnly(text), min, max)
    ensures r.Some? ==> var n := DigitsValue(DigitsOnly(text));
      && (n != 0 && InRange(n, min, max) ==> r.value == n)
      && (n != 0 && max.Some? && n >= max.value ==> r.value == max.value)
      && (n == 0 && Consistent(min, max) ==> r.value == min)
  {
    var raw := DigitsOnly(text);
    if raw == "" then None
    else
      NumberOfDigits(raw);
      Some(TypedValue(raw, min, max))
  }

  /** Typing the text of an in-range quantity selects that quantity. */
  lemma TypedChangeOfPrinted(n: nat, min: int, max: Option<int>)
    requires 0 < min && InRange(n, min, max)
    ensures TypedChange(NatToString(n), min, max) == Some(n)
  {
    TypedValueOfPrinted(n, min, max);
  }

  /** Typed text with no digit at all changes nothing. */
  lemma NonDigitsIgnored(text: string, min: int, max: Option<int>)
    requires forall i :: 0 <= i < |text| ==> !IsDigit(text[i])
    ensures TypedChange(text, min, max) == None
  {
    if DigitsOnly(text) != "" {
      DigitsOnlyKeepsDigits(text);
    }
  }

  lemma {:induction false} DigitsOnlyKeepsDigits(text: string)
    requires DigitsOnly(text) != ""
    ensures exists i :: 0 <= i < |text| && IsDigit(text[i])
  {
    if !IsDigit(text[0]) {
      DigitsOnlyKeepsDigits(text[1..]);
      var i :| 1 <= i + 1 < |text| && IsDigit(text[1..][i]);
      assert IsDigit(text[i + 1]);
    }
  }

  /** The dependencies of the sync effect. */
  datatype SyncDeps = SyncDeps(expanded: bool, value: int, min: int, hasUserInput: bool)

  class AddToCartControl {
    var value: int
    const min: int
    const max: Option<int>
    var expanded: bool
    var localInput: Option<string>
    var hasUserInput: bool
    var clicked: bool
    /** The dependencies the sync effect last ran with (`None` before the first render). */
    var lastDeps: Option<SyncDeps>

    function CurrentDeps(): SyncDeps
      reads this
    {
      SyncDeps(expanded, value, min, hasUserInput)
    }

    /** `min` defaults to 1; the control starts collapsed and untouched. */
    constructor(value: int, min: Option<int>, max: Option<int>)
      ensures this.value == value && this.min == min.GetOr(DefaultMin) && this.max == max
      ensures !expanded && localInput == None && !hasUserInput && !clicked && lastDeps == None
    {
      this.value := value;
      this.min := min.GetOr(DefaultMin);
      this.max := max;
      expanded := false;
      localInput := None;
      hasUserInput := false;
      clicked := false;
      lastDeps := None;
    }

    /** After a render the sync effect runs, but only when one of its dependencies changed. */
    method AfterRender()
      modifies this
      ensures lastDeps == Some(CurrentDeps())
      ensures old(lastDeps) != Some(old(CurrentDeps())) ==> localInput == SyncedInput(expanded, value, min, hasUserInput)
      ensures old(lastDeps) == Some(old(CurrentDeps())) ==> localInput == old(localInput)
      ensures value == old(value) && expanded == old(expanded)
      ensures hasUserInput == old(hasUserInput) && clicked == old(clicked)
    {
      if lastDeps != Some(CurrentDeps()) {
        localInput := SyncedInput(expanded, value, min, hasUserInput);
      }
      lastDeps := Some(CurrentDeps());
    }

    /** The minus button: one less, not below `min`, mirrored into the field. */
    method Dec()
      modifies this
      ensures value == QtySelector.Dec(old(value), min)
      ensures localInput == Some(IntToString(value)) && hasUserInput
      ensures expanded == old(expanded) && clicked == old(clicked) && lastDeps == old(lastDeps)
      ensures InRange(old(value), min, max) ==> InRange(value, min, max)
    {
      value := QtySelector.Dec(value, min);
      localInput := Some(IntToString(value));
      hasUserInput := true;
    }

    /** The plus button: one more, not above a given `max`, mirrored into the field. */
    method Inc()
      modifies this
      ensures value == QtySelector.Inc(old(value), max)
      ensures localInput == Some(IntToString(value)) && hasUserInput
      ensures expanded == old(expanded) && clicked == old(clicked) && lastDeps == old(lastDeps)
      ensures InRange(old(value), min, max) ==> InRange(value, min, max)
    {
      value := QtySelector.Inc(value, max);
      localInput := Some(IntToString(value));
      hasUserInput := true;
    }

    /** Typing: the field keeps the digits, and a non-empty entry changes the value. */
    method OnInput(text: string)
      modifies this`localInput, this`hasUserInput, this`value
      ensures localInput == Some(DigitsOnly(text)) && hasUserInput
      ensures value == TypedChange(text, min, max).GetOr(old(value))
      ensures Consistent(min, max) && InRange(old(value), min, max) ==> InRange(value, min, max)
      ensures expanded == old(expanded) && clicked == old(clicked) && lastDeps == old(lastDeps)
    {
      var raw := DigitsOnly(text);
      localInput := Some(raw);
      hasUserInput := true;
      if raw == "" {
        return;
      }
      value := TypedValue(raw, min, max);
    }

    /**
     * Leaving the field: an empty field goes back to the placeholder and keeps the value;
     * any other text is read again and clamped.
     */
    method OnBlur()
      modifies this
      ensures old(localInput) == Some("") ==> !hasUserInput && value == old(value)
      ensures old(localInput).Some? && old(localInput) != Some("") ==>
        value == TypedValue(old(localInput).value, min, max) && hasUserInput == old(hasUserInput)
      ensures old(localInput).None? ==> value == old(value) && hasUserInput == old(hasUserInput)
      ensures Consistent(min, max) && InRange(old(value), min, max) ==> InRange(value, min, max)
      ensures localInput == old(localInput) && expanded == old(expanded)
      ensures clicked == old(clicked) && lastDeps == old(lastDeps)
    {
      if localInput == Some("") {
        hasUserInput := false;
      } else if localInput.Some? {
        value := TypedValue(localInput.value, min, max);
      }
    }

    /** The cart button: open or close the stepper. */
    method ToggleExpand()
      modifies this
      ensures expanded == !old(expanded)
      ensures value == old(value) && localInput == old(localInput) && hasUserInput == old(hasUserInput)
      ensures clicked == old(clicked) && lastDeps == old(lastDeps)
    {
      expanded := !expanded;
    }

    /** A mouse press outside the control while it is open closes it. */
    method PressOutside()
      modifies this
      ensures !expanded
      ensures value == old(value) && localInput == old(localInput) && hasUserInput == old(hasUserInput)
      ensures clicked == old(clicked) && lastDeps == old(lastDeps)
    {
      if expanded {
        expanded := false;
      }
    }

    /** The add button, once the parent's `onAdd` has run: mark the click and collapse. */
    method HandleAdd()
      modifies this
      ensures clicked && !expanded
      ensures value == old(value) && localInput == old(localInput) && hasUserInput == old(hasUserInput)
      ensures lastDeps == old(lastDeps)
    {
      clicked := true;
      expanded := false;
    }

    /** The timer half a second after an add clears the click mark. */
    method ClickTimerFires()
      modifies this
      ensures !clicked
      ensures value == old(value) && expanded == old(expanded) && localInput == old(localInput)
      ensures hasUserInput == old(hasUserInput) && lastDeps == old(lastDeps)
    {
      clicked := false;
    }

    /**
     * The parent unmounts the control and later mounts it again: every piece of local
     * state starts afresh, as in the constructor; only the parent's `value` survives.
     */
    method Remount()
      modifies this
      ensures value == old(value)
      ensures !expanded && localInput == None && !hasUserInput && !clicked && lastDeps == None
    {
      expanded := false;
      localInput := None;
      hasUserInput := false;
      clicked := false;
      lastDeps := None;
    }
  }
}
