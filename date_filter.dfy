/** The date-range filter widget: a local range that follows every calendar
    selection, written through to the column filter only once both ends are
    chosen. */
module DateFilter {
  import opened Wrappers
  import opened ColumnFilter

  /** An instant, in milliseconds since the epoch. A JavaScript `Date`
      object is always truthy, so only its presence matters to the widget. */
  type Date = int

  /** react-day-picker's `DateRange`: both ends optional. */
  datatype DateRange = DateRange(from: Option<Date>, to: Option<Date>)

  /** A selection with both ends, the only kind written to the column. */
  predicate IsComplete(selection: Option<DateRange>)
  {
    selection.Some? && selection.value.from.Some? && selection.value.to.Some?
  }

  /** The filter value written for a complete selection; `toDateString`
      stands for `Date.prototype.toDateString` in the local time zone. */
  function RangeValue(selection: Option<DateRange>, toDateString: Date -> string): (v: FilterValue)
    requires IsComplete(selection)
    ensures v.DateStrings?
    ensures v.from == toDateString(selection.value.from.value)
    ensures v.to == toDateString(selection.value.to.value)
  {
    DateStrings(toDateString(selection.value.from.value), toDateString(selection.value.to.value))
  }

  class DateFilterWidget {
    /** The local `dateRange` state. */
    var from: Option<Date>
    var to: Option<Date>

    /** The initial state: each end of the default is kept, converted by
        `toUtc` (standing for `convertToUTC`), only when it is set. */
    constructor (defaultValue: Option<DateRange>, toUtc: Date -> Date)
      ensures from == if defaultValue.Some? && defaultValue.value.from.Some?
                      then Some(toUtc(defaultValue.value.from.value)) else None
      ensures to == if defaultValue.Some? && defaultValue.value.to.Some?
                    then Some(toUtc(defaultValue.value.to.value)) else None
    {
      from := if defaultValue.Some? && defaultValue.value.from.Some?
              then Some(toUtc(defaultValue.value.from.value)) else None;
      to := if defaultValue.Some? && defaultValue.value.to.Some?
            then Some(toUtc(defaultValue.value.to.value)) else None;
    }

    /** `handleDateSelect`: the local range becomes exactly the selection,
        and the column filter is written only for a complete selection. */
    method HandleDateSelect(selection: Option<DateRange>, column: Column?, toDateString: Date -> string)
      modifies this, column
      ensures from == (if selection.Some? then selection.value.from else None)
      ensures to == (if selection.Some? then selection.value.to else None)
      ensures column != null && IsComplete(selection) ==>
        column.filterValue == RangeValue(selection, toDateString)
      ensures column != null && !IsComplete(selection) ==>
        column.filterValue == old(column.filterValue)
    {
      from := if selection.Some? then selection.value.from else None;
      to := if selection.Some? then selection.value.to else None;
      if IsComplete(selection) && column != null {
        column.SetFilterValue(RangeValue(selection, toDateString));
      }
    }

    /** The text after the title on the trigger button; `format` stands for
        date-fns' `format(d, "LLL dd, y")`. */
    function TriggerLabel(format: Date -> string): (text: Option<string>)
      reads this
      ensures text.Some? <==> from.Some?
      ensures from.Some? && to.Some? ==> text == Some(format(from.value) + " - " + format(to.value))
      ensures from.Some? && to.None? ==> text == Some(format(from.value))
    {
      match from
      case None => None
      case Some(f) => Some(if to.Some? then format(f) + " - " + format(to.value) else format(f))
    }
  }

  /** The usual two clicks on the calendar: the first picks the start and
      leaves the column as it was, the second completes the range and writes
      it; the label follows each click. */
  method PickRange(w: DateFilterWidget, column: Column, start: Date, end: Date,
                   toDateString: Date -> string, format: Date -> string)
    modifies w, column
    ensures column.filterValue == DateStrings(toDateString(start), toDateString(end))
    ensures w.TriggerLabel(format) == Some(format(start) + " - " + format(end))
  {
    var before := column.filterValue;
    w.HandleDateSelect(Some(DateRange(Some(start), None)), column, toDateString);
    assert column.filterValue == before;
    assert w.TriggerLabel(format) == Some(format(start));
    w.HandleDateSelect(Some(DateRange(Some(start), Some(end))), column, toDateString);
  }
}
