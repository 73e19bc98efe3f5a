/** A group of checkboxes bound to a list of selected option values. */
module CheckboxGroup {

  /** `value.filter(v => v !== x)`. */
  function Remove(value: seq<string>, x: string): (r: seq<string>)
    ensures x !in r
    ensures forall y :: y != x ==> (y in r <==> y in value)
    ensures |r| <= |value|
  {
    if value == [] then []
    else (if value[0] != x then [value[0]] else []) + Remove(value[1..], x)
  }

  /** `handleCheckboxChange`: the new value passed to `onChange`. */
  function HandleCheckboxChange(value: seq<string>, optionValue: string, checked: bool): (r: seq<string>)
    ensures checked ==> r == value + [optionValue]
    ensures !checked ==> r == Remove(value, optionValue)
    ensures checked <==> optionValue in r
  {
    if checked then value + [optionValue] else Remove(value, optionValue)
  }

  /** Whether an option is shown checked. */
  predicate IsChecked(value: seq<string>, optionValue: string) {
    optionValue in value
  }

  /** Unchecking two options in either order gives the same value. */
  lemma {:induction false} RemoveCommutes(value: seq<string>, x: string, y: string)
    ensures Remove(Remove(value, x), y) == Remove(Remove(value, y), x)
  {
    if value != [] {
      RemoveCommutes(value[1..], x, y);
      var a := if value[0] != x then [value[0]] else [];
      RemoveConcat(a, Remove(value[1..], x), y);
      var b := if value[0] != y then [value[0]] else [];
      RemoveConcat(b, Remove(value[1..], y), x);
    }
  }

  /** Unchecking works piecewise, so the remaining values keep their relative order. */
  lemma {:induction false} RemoveConcat(a: seq<string>, b: seq<string>, x: string)
    ensures Remove(a + b, x) == Remove(a, x) + Remove(b, x)
  {
    if a != [] {
      assert (a + b)[1..] == a[1..] + b;
      RemoveConcat(a[1..], b, x);
    } else {
      assert a + b == b;
    }
  }

  /** A value with no occurrence of x is left exactly as it was by unchecking x. */
  lemma {:induction false} RemoveAbsent(value: seq<string>, x: string)
    requires x !in value
    ensures Remove(value, x) == value
  {
    if value != [] {
      RemoveAbsent(value[1..], x);
    }
  }

  /** Checking then unchecking an option returns to the value without that option. */
  lemma CheckThenUncheck(value: seq<string>, x: string)
    ensures HandleCheckboxChange(HandleCheckboxChange(value, x, true), x, false) == Remove(value, x)
  {
    RemoveConcat(value, [x], x);
    assert Remove([x], x) == [];
  }

  /** Checking an option already present adds a second copy. */
  lemma CheckDuplicates(value: seq<string>, x: string)
    requires x in value
    ensures |HandleCheckboxChange(value, x, true)| == |value| + 1
    ensures multiset(HandleCheckboxChange(value, x, true))[x] == multiset(value)[x] + 1
  {
  }
}
