/**
 * The multi-select dropdown: at most two chips are shown for the selected
 * values, the second becoming a "+N more" chip when more than two are
 * selected; menu options carry a tick when selected.
 */
module MultiSelect {
  import opened Wrappers
  import opened Text

  datatype SelectOption = SelectOption(value: string, text: string)

  datatype Chip = Hidden | LabelChip(text: string) | MoreChip(text: string)

  /** The text of the "+N more" chip. */
  function MoreText(n: nat): string {
    "+" + NatToString(n) + " more"
  }

  /** `CustomMultiValue` for the chip at `index` among `selected`. */
  function ChipAt(selected: seq<SelectOption>, index: nat): (c: Chip)
    requires index < |selected|
    ensures index >= 2 ==> c.Hidden?
    ensures index == 1 && |selected| > 2 ==> c == MoreChip(MoreText(|selected| - 2))
    ensures c.LabelChip? ==> c.text == selected[index].text && index < 2
  {
    if index >= 2 then Hidden
    else if index == 1 && |selected| > 2 then MoreChip(MoreText(|selected| - 2))
    else LabelChip(selected[index].text)
  }

  /** The chips actually rendered, in order. */
  function VisibleChips(selected: seq<SelectOption>): seq<Chip> {
    Visible(selected, 0)
  }

  function Visible(selected: seq<SelectOption>, i: nat): seq<Chip>
    requires i <= |selected|
    decreases |selected| - i
  {
    if i == |selected| then []
    else var c := ChipAt(selected, i); (if c.Hidden? then [] else [c]) + Visible(selected, i + 1)
  }

  lemma {:induction false} HiddenFrom(selected: seq<SelectOption>, i: nat)
    requires 2 <= i <= |selected|
    ensures Visible(selected, i) == []
    decreases |selected| - i
  {
    if i < |selected| {
      HiddenFrom(selected, i + 1);
    }
  }

  /** At most two chips: all labels for up to two selections, else the first label and "+(n-2) more". */
  lemma ChipCollapse(selected: seq<SelectOption>)
    ensures |selected| == 0 ==> VisibleChips(selected) == []
    ensures |selected| == 1 ==> VisibleChips(selected) == [LabelChip(selected[0].text)]
    ensures |selected| == 2 ==> VisibleChips(selected) == [LabelChip(selected[0].text), LabelChip(selected[1].text)]
    ensures |selected| > 2 ==> VisibleChips(selected) == [LabelChip(selected[0].text), MoreChip(MoreText(|selected| - 2))]
  {
    if |selected| == 1 {
      assert Visible(selected, 1) == [];
      assert Visible(selected, 0) == [LabelChip(selected[0].text)] + [];
    } else if |selected| >= 2 {
      HiddenFrom(selected, 2);
      var second := ChipAt(selected, 1);
      assert Visible(selected, 1) == [second] + [];
      assert Visible(selected, 0) == [LabelChip(selected[0].text)] + [second];
    }
  }

  /** The number in the "+N more" chip reads back as the count of hidden selections. */
  lemma MoreCountReadable(n: nat)
    ensures var t := MoreText(n); DecimalValue(t[1..|t| - 5]) == n
  {
    var t := MoreText(n);
    assert t[1..|t| - 5] == NatToString(n);
    DecimalRoundTrip(n);
  }

  /** Where react-select renders an option's label: in the control or in the menu. */
  datatype LabelContext = ValueContext | MenuContext

  datatype OptionLabel = PlainLabel(text: string) | MenuLabel(text: string, tick: bool)

  /** `formatOptionLabel`: the bare label in the control, the label with a tick mark in the menu. */
  function FormatOptionLabel(option: SelectOption, context: LabelContext, selected: seq<SelectOption>): (r: OptionLabel)
    ensures r.text == option.text
    ensures context == ValueContext <==> r.PlainLabel?
    ensures r.MenuLabel? ==> (r.tick <==> exists k :: 0 <= k < |selected| && selected[k].value == option.value)
  {
    if context == ValueContext then PlainLabel(option.text)
    else MenuLabel(option.text, exists k :: 0 <= k < |selected| && selected[k].value == option.value)
  }

  /** Ticks compare values only: an entry with another label but the same value ticks the option. */
  lemma TickByValue(option: SelectOption, other: string)
    ensures FormatOptionLabel(option, MenuContext, [SelectOption(option.value, other)]).tick
  {
    assert [SelectOption(option.value, other)][0].value == option.value;
  }

  /** Selecting more options never removes a tick. */
  lemma TickMonotone(option: SelectOption, selected: seq<SelectOption>, more: seq<SelectOption>)
    requires FormatOptionLabel(option, MenuContext, selected).tick
    ensures FormatOptionLabel(option, MenuContext, selected + more).tick
  {
    var k :| 0 <= k < |selected| && selected[k].value == option.value;
    assert (selected + more)[k] == selected[k];
  }

  /** `handleChange`: a copy of the selection, [] when there is none. */
  function HandleChange(selected: Option<seq<SelectOption>>): (r: seq<SelectOption>)
    ensures selected.None? ==> r == []
    ensures selected.Some? ==> r == selected.value
  {
    if selected.None? then [] else selected.value
  }
}
