/**
 * `AsyncStrictCombobox`: a popover list of items, at most one of them
 * selected. Selecting the current value again clears it; any selection
 * closes the popover. The parent owns `value` and receives the new value
 * through `onValueChange`, which the model returns from `Select`.
 */
module Combobox {
  import opened Wrappers

  /** `ComboboxItem`; `text` is its `label` (a reserved word in Dafny). */
  datatype Item = Item(value: string, text: string)

  /** What the list shows: a disabled `Loading...` entry, or one entry per item. */
  datatype Entry = Loading | Choice(value: string, text: string, checked: bool)

  const Placeholder: string := "Select one..."

  /** `items.find((item) => item.value === value)`: the first item carrying `value`. */
  function FirstWithValue(items: seq<Item>, value: string): (r: Option<Item>)
    ensures r.None? <==> forall k :: 0 <= k < |items| ==> items[k].value != value
    ensures r.Some? ==>
      exists k :: 0 <= k < |items| && items[k] == r.value && r.value.value == value
        && forall j :: 0 <= j < k ==> items[j].value != value
    decreases |items|
  {
    if |items| == 0 then None
    else if items[0].value == value then Some(items[0])
    else
      var r := FirstWithValue(items[1..], value);
      assert forall k :: 1 <= k < |items| ==> items[k] == items[1..][k - 1];
      r
  }

  /** The trigger button's text: the selected item's label, or the placeholder. */
  function TriggerLabel(items: seq<Item>, value: string): string {
    if value == "" then Placeholder
    else
      match FirstWithValue(items, value)
      case Some(item) => if item.text != "" then item.text else Placeholder
      case None => Placeholder
  }

  /**
   * The placeholder shows when nothing is selected or no item carries the value;
   * otherwise the label of the first item carrying it (an empty label also
   * falls back to the placeholder).
   */
  lemma TriggerLabelShowsSelection(items: seq<Item>, value: string, k: nat)
    requires k < |items| && items[k].value == value
    requires forall j :: 0 <= j < k ==> items[j].value != value
    ensures TriggerLabel(items, value)
         == if value != "" && items[k].text != "" then items[k].text else Placeholder
  {
    var r := FirstWithValue(items, value);
    var m :| 0 <= m < |items| && items[m] == r.value && r.value.value == value
      && forall j :: 0 <= j < m ==> items[j].value != value;
    assert m == k;
  }

  lemma TriggerLabelPlaceholder(items: seq<Item>, value: string)
    requires value == "" || forall k :: 0 <= k < |items| ==> items[k].value != value
    ensures TriggerLabel(items, value) == Placeholder
  {
  }

  /** The check mark beside `item`. */
  predicate IsChecked(item: Item, value: string) {
    value == item.value
  }

  /** The value `onSelect` hands to `onValueChange`: choosing the current value toggles it off. */
  function Toggled(current: string, choice: string): string {
    if choice == current then "" else choice
  }

  /**
   * Once the parent stores the emitted value, the chosen item is checked
   * exactly when it was not checked before, and a different choice replaces
   * the selection.
   */
  lemma ToggleFlipsCheck(current: string, item: Item)
    requires item.value != ""
    ensures IsChecked(item, Toggled(current, item.value)) <==> !IsChecked(item, current)
    ensures !IsChecked(item, current) ==> Toggled(current, item.value) == item.value
    ensures IsChecked(item, current) ==> Toggled(current, item.value) == ""
  {
  }

  /** The entries of the list, in item order. */
  function Entries(items: seq<Item>, value: string): seq<Entry> {
    if |items| == 0 then [Loading]
    else seq(|items|, k requires 0 <= k < |items| =>
               Choice(items[k].value, items[k].text, IsChecked(items[k], value)))
  }

  /**
   * `Loading...` appears exactly when there are no items; otherwise each item
   * appears once, in order, checked exactly when its value is the current one.
   */
  lemma EntriesShape(items: seq<Item>, value: string)
    ensures Loading in Entries(items, value) <==> |items| == 0
    ensures |items| == 0 ==> Entries(items, value) == [Loading]
    ensures |items| > 0 ==>
      |Entries(items, value)| == |items|
      && forall k :: 0 <= k < |items| ==>
           var e := Entries(items, value)[k];
           e.Choice? && e.value == items[k].value && e.text == items[k].text
           && (e.checked <==> items[k].value == value)
  {
    if |items| > 0 {
      assert forall k :: 0 <= k < |items| ==> Entries(items, value)[k] != Loading;
    }
  }

  /** With distinct item values at most one entry carries a check mark. */
  lemma AtMostOneChecked(items: seq<Item>, value: string, i: nat, j: nat)
    requires forall a, b :: 0 <= a < b < |items| ==> items[a].value != items[b].value
    requires i < |items| && j < |items|
    requires Entries(items, value)[i].checked && Entries(items, value)[j].checked
    ensures i == j
  {
  }

  /** The combobox's own state: its props and whether the popover is open. */
  class StrictCombobox {
    var items: seq<Item>
    var value: string
    var open: bool

    /** `React.useState(false)`: the popover starts closed. */
    constructor (items: seq<Item>, value: string)
      ensures this.items == items && this.value == value && !open
    {
      this.items := items;
      this.value := value;
      open := false;
    }

    /** `onOpenChange={setOpen}`. */
    method SetOpen(next: bool)
      modifies this`open
      ensures open == next
    {
      open := next;
    }

    /** `onSelect`: emit the toggled value and close the popover. */
    method Select(choice: string) returns (emitted: string)
      modifies this`open
      ensures emitted == Toggled(value, choice)
      ensures !open
    {
      emitted := Toggled(value, choice);
      open := false;
    }
  }
}
