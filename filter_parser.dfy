/** The filter toolbar's dispatch from filter descriptors to widgets. */
module FilterParser {
  import opened Wrappers
  import opened FacetedFilter
  import opened DateFilter

  /** One filter descriptor as the pages declare it. */
  datatype Descriptor = Descriptor(key: string, title: string, kind: string,
                                   options: seq<FilterOption>, defaultValue: Option<DateRange>)

  /** A rendered widget: its React key, the column it is bound to (absent
      when the table has no column with that id), its title, and what its
      kind needs. */
  datatype Widget =
    | FacetedWidget(key: string, column: Option<string>, title: string,
                    options: seq<FilterOption>, mode: SelectionMode)
    | DateWidget(key: string, column: Option<string>, title: string, defaultValue: Option<DateRange>)

  /** `table.getColumn(key)`, given the ids of the table's columns. */
  function GetColumn(columnIds: seq<string>, key: string): (c: Option<string>)
    ensures c.Some? <==> key in columnIds
    ensures c.Some? ==> c.value == key
  {
    if key in columnIds then Some(key) else None
  }

  /** The widget one descriptor renders, if any. */
  function Dispatch(d: Descriptor, columnIds: seq<string>): (w: Option<Widget>)
    ensures d.kind == "multiselect" <==> w.Some? && w.value.FacetedWidget? && w.value.mode == Multi
    ensures d.kind == "select" <==> w.Some? && w.value.FacetedWidget? && w.value.mode == Single
    ensures d.kind == "date" <==> w.Some? && w.value.DateWidget?
    ensures w.None? <==> d.kind !in {"multiselect", "select", "date"}
    ensures w.Some? ==>
      w.value.key == d.key && w.value.title == d.title && w.value.column == GetColumn(columnIds, d.key)
    ensures w.Some? && w.value.FacetedWidget? ==> w.value.options == d.options
    ensures w.Some? && w.value.DateWidget? ==> w.value.defaultValue == d.defaultValue
  {
    var column := GetColumn(columnIds, d.key);
    if d.kind == "multiselect" then Some(FacetedWidget(d.key, column, d.title, d.options, Multi))
    else if d.kind == "select" then Some(FacetedWidget(d.key, column, d.title, d.options, Single))
    else if d.kind == "date" then Some(DateWidget(d.key, column, d.title, d.defaultValue))
    else None
  }

  /** `DataTableFilterParser`: one slot per descriptor, in order; an absent
      list renders nothing. */
  function Parse(filters: Option<seq<Descriptor>>, columnIds: seq<string>): (slots: seq<Option<Widget>>)
    ensures filters.None? ==> slots == []
    ensures filters.Some? ==> |slots| == |filters.value|
    ensures filters.Some? ==> forall i :: 0 <= i < |slots| ==> slots[i] == Dispatch(filters.value[i], columnIds)
  {
    var ds := filters.GetOr([]);
    seq(|ds|, i requires 0 <= i < |ds| => Dispatch(ds[i], columnIds))
  }

  /** The widgets shown are exactly those of descriptors of a known kind. */
  lemma RenderedWidgets(filters: seq<Descriptor>, columnIds: seq<string>, i: int)
    requires 0 <= i < |filters|
    ensures Parse(Some(filters), columnIds)[i].Some? <==>
      filters[i].kind == "multiselect" || filters[i].kind == "select" || filters[i].kind == "date"
  {
  }
}
