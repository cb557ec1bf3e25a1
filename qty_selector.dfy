/**
 * The quantity arithmetic of the stepper (src/components/ui/qty-selector.tsx). The
 * add-to-cart control and the quantity panel repeat the same expressions, so they use
 * these definitions too. A missing `max` (`None`) means "no upper bound".
 */
module QtySelector {
  import opened Wrappers
  import Text

  /** The default lower bound of the stepper. */
  const DefaultMin := 1

  function Max(a: int, b: int): int { if a >= b then a else b }
  function Min(a: int, b: int): int { if a <= b then a else b }

  /** `value` is within `[min, max]` (no upper bound when `max` is missing). */
  predicate InRange(value: int, min: int, max: Option<int>) {
    min <= value && (max.Some? ==> value <= max.value)
  }

  /** The bounds admit at least one value. */
  predicate Consistent(min: int, max: Option<int>) {
    max.None? || min <= max.value
  }

  /** `Math.max(min, v)`, then `Math.min(max, ...)` when a maximum is given: the maximum wins. */
  function Clamp(v: int, min: int, max: Option<int>): (r: int)
    ensures max.Some? ==> r <= max.value
    ensures Consistent(min, max) ==> InRange(r, min, max)
    ensures InRange(v, min, max) ==> r == v
    ensures max.Some? && v >= max.value ==> r == max.value
    ensures Consistent(min, max) && v <= min ==> r == min
  {
    var lifted := Max(min, v);
    if max.Some? then Min(max.value, lifted) else lifted
  }

  /** The minus button: one less, but never below `min`. */
  function Dec(value: int, min: int): (r: int)
    ensures r >= min
    ensures value - 1 >= min ==> r == value - 1
    ensures value - 1 < min ==> r == min
  {
    Max(min, value - 1)
  }

  /** The plus button: one more, capped by `max` when it is given. */
  function Inc(value: int, max: Option<int>): (r: int)
    ensures max.Some? ==> r <= max.value
    ensures max.None? || value + 1 <= max.value ==> r == value + 1
    ensures max.Some? && value + 1 > max.value ==> r == max.value
  {
    if max.Some? then Min(max.value, value + 1) else value + 1
  }

  /**
   * A typed quantity: `Number(text) || min`, floored, raised to `min` and capped by `max`.
   * Text that is not a number, and zero, give `min`. Numbers are integers here, so the
   * floor changes nothing.
   */
  function TypedValue(text: string, min: int, max: Option<int>): (r: int)
    ensures Consistent(min, max) ==> InRange(r, min, max)
    ensures var n := Text.NumberOf(text);
      && (n.Some? && n.value != 0 && InRange(n.value, min, max) ==> r == n.value)
      && (n.Some? && n.value != 0 && max.Some? && n.value >= max.value ==> r == max.value)
      && (n.Some? && n.value != 0 && n.value <= min && Consistent(min, max) ==> r == min)
      && ((n.None? || n.value == 0) && Consistent(min, max) ==> r == min)
  {
    var n := Text.NumberOf(text);
    var v := if n.Some? && n.value != 0 then n.value else min;
    Clamp(v, min, max)
  }

  /** The minus button is disabled at or below `min`. */
  predicate MinusDisabled(value: int, min: int) { value <= min }

  /** The plus button is disabled at or above a given `max`. */
  predicate PlusDisabled(value: int, max: Option<int>) { max.Some? && value >= max.value }

  /** An enabled button moves the value by exactly one; a disabled one never moves it past its bound. */
  lemma ButtonsAgreeWithSteps(value: int, min: int, max: Option<int>)
    ensures !MinusDisabled(value, min) ==> Dec(value, min) == value - 1
    ensures MinusDisabled(value, min) ==> Dec(value, min) == min
    ensures !PlusDisabled(value, max) ==> Inc(value, max) == value + 1
    ensures PlusDisabled(value, max) ==> Inc(value, max) == max.value
  {
  }

  /** Typing the printed form of an in-range quantity gives that quantity back. */
  lemma TypedValueOfPrinted(n: int, min: int, max: Option<int>)
    requires 0 < min && InRange(n, min, max)
    ensures TypedValue(Text.IntToString(n), min, max) == n
  {
    Text.NumberOfIntToString(n);
  }

  /** Stepping keeps a value that starts within consistent bounds within them. */
  lemma StepsStayInRange(value: int, min: int, max: Option<int>)
    requires InRange(value, min, max)
    ensures InRange(Dec(value, min), min, max)
    ensures InRange(Inc(value, max), min, max)
  {
  }
}
