/**
 * Selection state and labels of the accessible data table. Rows are
 * identified by the key `rowKey` gives them; the selection is a set of keys.
 */
module DataTable {
  import opened Wrappers

  datatype Direction = Asc | Desc
  datatype SortConfig = SortConfig(key: string, direction: Direction)

  /** `allSelected`: the data is non-empty and every row's key is selected. */
  predicate AllSelected<T, K>(data: seq<T>, rowKey: T -> K, selected: set<K>) {
    |data| > 0 && forall i :: 0 <= i < |data| ==> rowKey(data[i]) in selected
  }

  /** `someSelected`: some row's key is selected. */
  predicate SomeSelected<T, K>(data: seq<T>, rowKey: T -> K, selected: set<K>) {
    exists i :: 0 <= i < |data| && rowKey(data[i]) in selected
  }

  lemma AllImpliesSome<T, K>(data: seq<T>, rowKey: T -> K, selected: set<K>)
    requires AllSelected(data, rowKey, selected)
    ensures SomeSelected(data, rowKey, selected)
  {
    assert rowKey(data[0]) in selected;
  }

  /** The header checkbox's `indeterminate` flag. */
  function Indeterminate<T, K>(data: seq<T>, rowKey: T -> K, selected: set<K>): (r: bool)
    ensures r ==> SomeSelected(data, rowKey, selected) && !AllSelected(data, rowKey, selected)
    ensures !r && SomeSelected(data, rowKey, selected) ==> AllSelected(data, rowKey, selected)
  {
    SomeSelected(data, rowKey, selected) && !AllSelected(data, rowKey, selected)
  }

  /** Selecting every key makes the header checked and not indeterminate; selecting none clears both. */
  lemma SelectAllEffect<T, K>(data: seq<T>, rowKey: T -> K)
    requires |data| > 0
    ensures var all := set i | 0 <= i < |data| :: rowKey(data[i]);
      AllSelected(data, rowKey, all) && !Indeterminate(data, rowKey, all)
    ensures !SomeSelected(data, rowKey, {}) && !AllSelected(data, rowKey, {})
  {
    var all := set i | 0 <= i < |data| :: rowKey(data[i]);
    assert forall i :: 0 <= i < |data| ==> rowKey(data[i]) in all;
    AllImpliesSome(data, rowKey, all);
  }

  /** `handleSelectAll`: the `onRowSelect` calls made, one per row in order; none without a handler. */
  method HandleSelectAll<T, K>(data: seq<T>, rowKey: T -> K, hasOnRowSelect: bool, selected: bool)
    returns (calls: seq<(K, bool)>)
    ensures !hasOnRowSelect ==> calls == []
    ensures hasOnRowSelect ==> |calls| == |data| && forall i :: 0 <= i < |data| ==> calls[i] == (rowKey(data[i]), selected)
  {
    calls := [];
    if hasOnRowSelect {
      var i := 0;
      while i < |data|
        invariant 0 <= i <= |data|
        invariant |calls| == i && forall j :: 0 <= j < i ==> calls[j] == (rowKey(data[j]), selected)
      {
        calls := calls + [(rowKey(data[i]), selected)];
        i := i + 1;
      }
    }
  }

  /** The sort button's aria label: "descending" only when the column is sorted ascending now. */
  function SortAriaLabel(header: string, columnKey: string, sortConfig: Option<SortConfig>): (r: string)
    ensures sortConfig.Some? && sortConfig.value.key == columnKey && sortConfig.value.direction == Asc
      ==> r == "Sort by " + header + " descending"
    ensures !(sortConfig.Some? && sortConfig.value.key == columnKey && sortConfig.value.direction == Asc)
      ==> r == "Sort by " + header + " ascending"
  {
    var next := if sortConfig.Some? && sortConfig.value.key == columnKey then
                  (if sortConfig.value.direction == Asc then "descending" else "ascending")
                else "ascending";
    "Sort by " + header + " " + next
  }

  /** The empty-state cell spans every column, plus the selection column when selectable. */
  function EmptyColSpan(columnCount: nat, selectable: bool): (n: nat)
    ensures n == columnCount + (if selectable then 1 else 0)
    ensures n >= columnCount
  {
    columnCount + (if selectable then 1 else 0)
  }
}
