/** The faceted (select / multi-select) filter widget: what it reads as the
    current selection, what each of its actions writes, and which badges and
    items it shows. In multi mode an empty selection is always written as
    `undefined`, never as an empty array. */
module FacetedFilter {
  import opened Wrappers
  import opened Seqs
  import opened ColumnFilter

  datatype SelectionMode = Multi | Single

  /** An option of the widget (its icon is left out). */
  datatype FilterOption = FilterOption(caption: string, value: string)

  /** The characters of a string, each as a one-character string (what
      iterating a JavaScript string yields). */
  function Chars(s: string): (cs: seq<string>)
    ensures |cs| == |s|
  {
    seq(|s|, i requires 0 <= i < |s| => [s[i]])
  }

  /** Multi mode's `new Set(column?.getFilterValue() as string[])`: the
      distinct values in first-occurrence order; `undefined` gives the empty
      set and a string gives its characters. */
  function SelectedSet(v: FilterValue): (s: seq<string>)
    ensures NoDuplicates(s)
    ensures v.Strings? ==> forall x :: x in s <==> x in v.values
    ensures v.Unset? ==> s == []
  {
    match v
    case Strings(vs) => Dedup(vs)
    case Text(t) => Dedup(Chars(t))
    case _ => []
  }

  /** `newValues.size ? Array.from(newValues) : undefined`. */
  function Normalise(s: seq<string>): (v: FilterValue)
    ensures v != Strings([])
    ensures |s| == 0 <==> v == Unset
  {
    if |s| == 0 then Unset else Strings(s)
  }

  /** What `onSelect` writes in multi mode: the option is removed when it is
      selected and appended when it is not. */
  function MultiToggle(current: FilterValue, option: string): (v: FilterValue)
    ensures v != Strings([])
    ensures option in SelectedSet(current) <==> option !in SelectedSet(v)
  {
    var selected := SelectedSet(current);
    Normalise(if option in selected then Without(selected, option) else With(selected, option))
  }

  /** What `onSelect` writes in single mode: choosing the selected option
      clears the filter, choosing another selects it. */
  function SingleToggle(current: FilterValue, option: string): (v: FilterValue)
    ensures current == Text(option) ==> v == Unset
    ensures current != Text(option) ==> v == Text(option)
  {
    if current == Text(option) then Unset else Text(option)
  }

  /** What removing a badge writes. */
  function RemoveValue(mode: SelectionMode, current: FilterValue, value: string): (v: FilterValue)
    ensures v != Strings([])
    ensures value !in SelectedSet(v)
    ensures mode == Single ==> v == Unset
  {
    match mode
    case Multi => Normalise(Without(SelectedSet(current), value))
    case Single => Unset
  }

  /** What `handleClearAll` and the "Clear filter(s)" item write. */
  const Cleared: FilterValue := Unset

  /** Normalising a set and reading it back gives the set. */
  lemma NormaliseReadBack(s: seq<string>)
    requires NoDuplicates(s)
    ensures SelectedSet(Normalise(s)) == s
  {
    DedupOfDistinct(s);
  }

  /** In multi mode selecting an option flips that option's membership and
      keeps every other value; an absent option is appended after the
      others, a present one is removed with the others kept in order. No
      write is ever an empty array. */
  lemma MultiToggleEffect(current: FilterValue, option: string)
    ensures var before := SelectedSet(current);
      var after := SelectedSet(MultiToggle(current, option));
      (forall x :: x != option ==> (x in after <==> x in before)) &&
      (option in after <==> option !in before) &&
      (option !in before ==> after == before + [option]) &&
      (option in before ==> after == Without(before, option))
    ensures MultiToggle(current, option) != Strings([])
  {
    var before := SelectedSet(current);
    if option in before {
      NormaliseReadBack(Without(before, option));
    } else {
      NormaliseReadBack(With(before, option));
    }
  }

  /** Selecting the same option twice in multi mode restores the selection as
      a set; when the option was not selected it restores it exactly, order
      included (`undefined` and an empty array read alike). */
  lemma MultiToggleTwice(current: FilterValue, option: string)
    ensures var twice := MultiToggle(MultiToggle(current, option), option);
      forall x :: x in SelectedSet(twice) <==> x in SelectedSet(current)
    ensures option !in SelectedSet(current) ==>
      SelectedSet(MultiToggle(MultiToggle(current, option), option)) == SelectedSet(current)
  {
    var before := SelectedSet(current);
    MultiToggleEffect(current, option);
    var once := MultiToggle(current, option);
    MultiToggleEffect(once, option);
    if option !in before {
      assert Without(before + [option], option) == before by {
        WithoutAppended(before, option);
      }
    }
  }

  lemma {:induction false} WithoutAppended(s: seq<string>, x: string)
    requires x !in s
    ensures Without(s + [x], x) == s
  {
    if s != [] {
      assert (s + [x])[1..] == s[1..] + [x];
      WithoutAppended(s[1..], x);
    }
  }

  /** Removing a badge in multi mode writes the set without that value, or
      `undefined` when nothing is left; in single mode it clears. */
  lemma RemoveValueEffect(current: FilterValue, value: string)
    ensures var after := SelectedSet(RemoveValue(Multi, current, value));
      forall x :: x in after <==> x in SelectedSet(current) && x != value
    ensures RemoveValue(Multi, current, value) != Strings([])
    ensures SelectedSet(current) == [value] ==> RemoveValue(Multi, current, value) == Unset
    ensures RemoveValue(Single, current, value) == Unset
  {
    NormaliseReadBack(Without(SelectedSet(current), value));
    if SelectedSet(current) == [value] {
      assert Without([value], value) == [];
    }
  }

  /** Single-mode selection toggles between the option and nothing. */
  lemma SingleToggleTwice(option: string)
    ensures SingleToggle(SingleToggle(Unset, option), option) == Unset
  {
  }

  /** JavaScript truthiness of `selectedValues` in single mode. */
  predicate IsTruthy(v: FilterValue)
  {
    match v
    case Unset => false
    case Text(t) => t != ""
    case _ => true
  }

  /** Joins strings with commas (`Array.prototype.toString`). */
  function JoinCommas(vs: seq<string>): (s: string)
    ensures s == "" <==> (|vs| == 0 || (|vs| == 1 && vs[0] == ""))
  {
    if |vs| == 0 then ""
    else if |vs| == 1 then vs[0]
    else vs[0] + "," + JoinCommas(vs[1..])
  }

  /** JavaScript truthiness of `selectedValues?.toString()` in single mode. */
  predicate StringIsTruthy(v: FilterValue)
  {
    match v
    case Unset => false
    case Text(t) => t != ""
    case Strings(vs) => JoinCommas(vs) != ""
    case DateStrings(_, _) => true
  }

  /** The options whose value is selected, in options order. */
  function OptionsIn(options: seq<FilterOption>, selected: seq<string>): (r: seq<FilterOption>)
    ensures forall o :: o in r <==> o in options && o.value in selected
    ensures |r| <= |options|
  {
    if options == [] then []
    else
      assert forall o :: o in options <==> o == options[0] || o in options[1..];
      (if options[0].value in selected then [options[0]] else []) + OptionsIn(options[1..], selected)
  }

  /** Filtering keeps options order: the options of a concatenation are the
      options of each part, one after the other. */
  lemma {:induction false} OptionsInAppend(a: seq<FilterOption>, b: seq<FilterOption>, selected: seq<string>)
    ensures OptionsIn(a + b, selected) == OptionsIn(a, selected) + OptionsIn(b, selected)
  {
    if a == [] {
      assert a + b == b;
    } else {
      assert (a + b)[1..] == a[1..] + b;
      OptionsInAppend(a[1..], b, selected);
    }
  }

  /** One option is kept, once, exactly when its value is selected. */
  lemma OptionsInSingle(o: FilterOption, selected: seq<string>)
    ensures OptionsIn([o], selected) == if o.value in selected then [o] else []
  {
    assert [o][1..] == [];
  }

  /** The label of the first option with the given value (`options.find`). */
  function FindLabel(options: seq<FilterOption>, v: FilterValue): (l: Option<string>)
    ensures l.Some? <==> exists o :: o in options && Text(o.value) == v
    ensures l.Some? ==> exists o :: o in options && Text(o.value) == v && o.caption == l.value
  {
    if options == [] then None
    else if Text(options[0].value) == v then Some(options[0].caption)
    else
      assert forall o :: o in options <==> o == options[0] || o in options[1..];
      FindLabel(options[1..], v)
  }

  /** `find` stops at the first match: the label is the caption of the first
      option with that value, whatever options follow it. */
  lemma {:induction false} FindLabelIsFirst(options: seq<FilterOption>, v: FilterValue, i: int)
    requires 0 <= i < |options| && Text(options[i].value) == v
    requires forall j :: 0 <= j < i ==> Text(options[j].value) != v
    ensures FindLabel(options, v) == Some(options[i].caption)
  {
    if i > 0 {
      FindLabelIsFirst(options[1..], v, i - 1);
    }
  }

  /** The badges inside the trigger button. In multi mode: a count badge
      (small screens) plus either one "N selected" badge or one badge per
      selected option. In single mode: one badge with the option's label. */
  datatype Detail = SelectedCount(n: nat) | PerOption(options: seq<FilterOption>)
  datatype Badges = NoBadges | MultiBadges(count: nat, detail: Detail) | SingleBadge(text: Option<string>)

  function TriggerBadges(mode: SelectionMode, v: FilterValue, options: seq<FilterOption>): (b: Badges)
    ensures mode == Multi ==>
      (b.NoBadges? <==> |SelectedSet(v)| == 0) &&
      (b.MultiBadges? ==>
         b.count == |SelectedSet(v)| &&
         (b.detail.SelectedCount? <==> |SelectedSet(v)| > 2) &&
         (b.detail.SelectedCount? ==> b.detail.n == |SelectedSet(v)|) &&
         (b.detail.PerOption? ==> b.detail.options == OptionsIn(options, SelectedSet(v))))
    ensures mode == Single ==> (b.SingleBadge? <==> StringIsTruthy(v)) && !b.MultiBadges?
    ensures b.SingleBadge? ==> b.text == FindLabel(options, v)
  {
    match mode
    case Multi =>
      var selected := SelectedSet(v);
      if |selected| == 0 then NoBadges
      else if |selected| > 2 then MultiBadges(|selected|, SelectedCount(|selected|))
      else MultiBadges(|selected|, PerOption(OptionsIn(options, selected)))
    case Single =>
      if StringIsTruthy(v) then SingleBadge(FindLabel(options, v)) else NoBadges
  }

  /** The check mark shown on an option in the list. */
  function IsSelected(mode: SelectionMode, v: FilterValue, option: string): (selected: bool)
    ensures mode == Multi ==> (selected <==> option in SelectedSet(v))
    ensures mode == Single ==> (selected <==> v == Text(option))
  {
    match mode
    case Multi => option in SelectedSet(v)
    case Single => v == Text(option)
  }

  /** The "Clear filters" / "Clear filter" item, shown only when something
      is selected. */
  function ClearItem(mode: SelectionMode, v: FilterValue): (item: Option<string>)
    ensures mode == Multi ==> (item.Some? <==> |SelectedSet(v)| > 0)
    ensures mode == Single ==> (item.Some? <==> IsTruthy(v))
    ensures item.Some? ==> item.value == if mode == Multi then "Clear filters" else "Clear filter"
  {
    match mode
    case Multi => if |SelectedSet(v)| > 0 then Some("Clear filters") else None
    case Single => if IsTruthy(v) then Some("Clear filter") else None
  }

  /** In single mode a selected option is always announced: once a
      non-empty option value is chosen, the badge shows the caption of the
      first option with that value and the clear item appears. */
  lemma SingleSelectionShown(options: seq<FilterOption>, i: int)
    requires 0 <= i < |options| && options[i].value != ""
    requires forall j :: 0 <= j < i ==> options[j].value != options[i].value
    ensures var v := SingleToggle(Unset, options[i].value);
      TriggerBadges(Single, v, options) == SingleBadge(Some(options[i].caption)) &&
      ClearItem(Single, v) == Some("Clear filter")
  {
    FindLabelIsFirst(options, Text(options[i].value), i);
  }

  /** The `onSelect` handler of an option. */
  method OnSelect(column: Column?, mode: SelectionMode, option: string)
    modifies column
    ensures column != null ==>
      column.filterValue == if mode == Multi then MultiToggle(old(column.filterValue), option)
                            else SingleToggle(old(column.filterValue), option)
  {
    if column == null {
      return;
    }
    var current := column.filterValue;
    var isSelected := IsSelected(mode, current, option);
    if mode == Multi {
      var newValues := SelectedSet(current);
      if isSelected {
        newValues := Without(newValues, option);
      } else {
        newValues := With(newValues, option);
      }
      column.SetFilterValue(if |newValues| > 0 then Strings(newValues) else Unset);
    } else {
      column.SetFilterValue(if isSelected then Unset else Text(option));
    }
  }

  /** `handleRemoveValue`, the click on one option badge. */
  method HandleRemoveValue(column: Column?, mode: SelectionMode, value: string)
    modifies column
    ensures column != null ==> column.filterValue == RemoveValue(mode, old(column.filterValue), value)
  {
    if column == null {
      return;
    }
    if mode == Multi {
      var newValues := SelectedSet(column.filterValue);
      newValues := Without(newValues, value);
      column.SetFilterValue(if |newValues| > 0 then Strings(newValues) else Unset);
    } else {
      column.SetFilterValue(Unset);
    }
  }

  /** `handleClearAll` and the "Clear filter(s)" item. */
  method HandleClearAll(column: Column?)
    modifies column
    ensures column != null ==> column.filterValue == Unset
  {
    if column != null {
      column.SetFilterValue(Cleared);
    }
  }
}
