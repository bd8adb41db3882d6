/** A table column's filter value, as the filter widgets read and write it
    through `column.getFilterValue()` and `column.setFilterValue(...)`. */
module ColumnFilter {

  /** The value shapes the widgets store: nothing (`undefined`), an array of
      option values (multi select), one option value (single select), or a
      date range as two date strings. */
  datatype FilterValue = Unset | Strings(values: seq<string>) | Text(value: string) | DateStrings(from: string, to: string)

  /** A table column, reduced to its id and the filter value it holds. */
  class Column {
    const id: string
    var filterValue: FilterValue

    constructor (id: string)
      ensures this.id == id && filterValue == Unset
    {
      this.id := id;
      filterValue := Unset;
    }

    /** `column.setFilterValue(v)`. */
    method SetFilterValue(v: FilterValue)
      modifies this
      ensures filterValue == v
    {
      filterValue := v;
    }
  }
}
