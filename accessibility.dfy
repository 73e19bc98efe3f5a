/**
 * Keyboard helpers for accessible widgets: arrow-key navigation in a list
 * and the focus trap of modal dialogs. Elements are identified by their
 * position in the list of focusable elements.
 */
module Accessibility {
  import opened Wrappers

  datatype Key = ArrowDown | ArrowUp | Home | End | Tab | OtherKey

  /**
   * The result of `handleArrowKeys`: the index handed to `onIndexChange`,
   * no reaction, or a `TypeError` because the target element does not exist.
   */
  datatype Navigation = Moved(index: int) | Ignored | Throws

  /** Focusing `items[target]`: throws when there is no such item. */
  function FocusItem(count: nat, target: int): (r: Navigation)
    ensures r != Ignored
    ensures r.Moved? <==> 0 <= target < count
    ensures r.Moved? ==> r.index == target
  {
    if 0 <= target < count then Moved(target) else Throws
  }

  /** `handleArrowKeys` over `count` items from `current`. */
  function HandleArrowKeys(key: Key, count: nat, current: int): (r: Navigation)
    ensures key == Home ==> r == (if count > 0 then Moved(0) else Throws)
    ensures key == End ==> r == (if count > 0 then Moved(count - 1) else Throws)
    ensures key !in {ArrowDown, ArrowUp, Home, End} ==> r == Ignored
    ensures r.Moved? ==> 0 <= r.index < count
  {
    match key
    case ArrowDown => FocusItem(count, if current < count - 1 then current + 1 else 0)
    case ArrowUp => FocusItem(count, if current > 0 then current - 1 else count - 1)
    case Home => FocusItem(count, 0)
    case End => FocusItem(count, count - 1)
    case _ => Ignored
  }

  /** From an item of a non-empty list, the arrows move cyclically to the next and previous item. */
  lemma ArrowsCycle(count: nat, current: int)
    requires 0 <= current < count
    ensures HandleArrowKeys(ArrowDown, count, current) == Moved((current + 1) % count)
    ensures HandleArrowKeys(ArrowUp, count, current) == Moved((current - 1) % count)
  {
    StepMod(current + 1, count);
    StepMod(current - 1, count);
  }

  /** One step past either end of `0 .. n-1` wraps around. */
  lemma StepMod(a: int, n: int)
    requires n > 0 && -1 <= a <= n
    ensures a % n == if a == n then 0 else if a == -1 then n - 1 else a
  {
    if a == n {
      assert a % n == 0;
    } else if a == -1 {
      assert a == n * -1 + (n - 1);
    }
  }

  /** ArrowDown then ArrowUp, or ArrowUp then ArrowDown, returns to the starting item. */
  lemma DownUpReturns(count: nat, current: int)
    requires 0 <= current < count
    ensures HandleArrowKeys(ArrowUp, count, HandleArrowKeys(ArrowDown, count, current).index) == Moved(current)
    ensures HandleArrowKeys(ArrowDown, count, HandleArrowKeys(ArrowUp, count, current).index) == Moved(current)
  {
  }

  /** In an empty list every navigation key throws. */
  lemma EmptyListThrows(key: Key, current: int)
    requires key in {ArrowDown, ArrowUp, Home, End}
    ensures HandleArrowKeys(key, 0, current) == Throws
  {
  }

  /** An index above the list makes ArrowUp target a missing item; ArrowDown wraps to the first. */
  lemma IndexPastEnd(count: nat, current: int)
    requires count > 0 && current > count
    ensures HandleArrowKeys(ArrowUp, count, current) == Throws
    ensures HandleArrowKeys(ArrowDown, count, current) == Moved(0)
  {
  }

  /** The reaction of the focus trap to a key press. */
  datatype TrapReaction = Wrap(to: nat) | BrowserDefault

  /** The element `trapFocus` focuses when installed: the first focusable one, if any. */
  function InitialFocus(count: nat): (r: Option<nat>)
    ensures r.Some? <==> count > 0
    ensures r.Some? ==> r.value == 0
  {
    if count > 0 then Some(0) else None
  }

  /**
   * `trapFocus`'s keydown handler: Tab on the last element moves to the
   * first, Shift+Tab on the first moves to the last; everything else is
   * left to the browser. `active` is the focused element's index among
   * the focusable ones, `None` when focus is elsewhere.
   */
  function HandleTabKey(count: nat, active: Option<nat>, key: Key, shift: bool): (r: TrapReaction)
    ensures r.Wrap? ==> key == Tab && count > 0 && r.to < count
    ensures r.Wrap? && shift ==> active == Some(0) && r.to == count - 1
    ensures r.Wrap? && !shift ==> active == Some(count - 1) && r.to == 0
    ensures key == Tab && count > 0 && shift && active == Some(0) ==> r.Wrap?
    ensures key == Tab && count > 0 && !shift && active == Some(count - 1) ==> r.Wrap?
  {
    if key != Tab || count == 0 then BrowserDefault
    else if shift then (if active == Some(0) then Wrap(count - 1) else BrowserDefault)
    else if active == Some(count - 1) then Wrap(0) else BrowserDefault
  }

  /** Where focus goes after a Tab from element `i`: the trap's wrap, or the browser's step. */
  function NextFocus(count: nat, i: nat, shift: bool): int
    requires i < count
  {
    match HandleTabKey(count, Some(i), Tab, shift)
    case Wrap(t) => t
    case BrowserDefault => if shift then i - 1 else i + 1
  }

  /** Tabbing from inside the dialog, either way, never leaves its focusable elements. */
  lemma FocusStaysTrapped(count: nat, i: nat, shift: bool)
    requires i < count
    ensures 0 <= NextFocus(count, i, shift) < count
  {
  }

  /** Tabbing through all elements from the first comes back to the first. */
  lemma {:induction false} TabCycle(count: nat, i: nat)
    requires i < count
    ensures Walk(count, i, count - i) == 0
    decreases count - i
  {
    if i < count - 1 {
      TabCycle(count, i + 1);
    }
  }

  /** Focus after `steps` forward Tabs from `i`. */
  function Walk(count: nat, i: nat, steps: nat): nat
    requires i < count
    decreases steps
  {
    if steps == 0 then i
    else
      FocusStaysTrapped(count, i, false);
      Walk(count, NextFocus(count, i, false), steps - 1)
  }
}
