/** The data table itself: the bridge between the caller's selected-row ids
    (an array) and the table's internal selection record (`id -> bool`), the
    selection column, the column pinning styles, the body shown for an empty
    or loading table, and the row identity accessor. */
module DataTable {
  import opened Wrappers
  import opened Seqs

  // ---------------------------------------------------------------------
  // The selection record. A JavaScript object keeps its keys in insertion
  // order, so the record is a sequence of entries with distinct keys.
  // ---------------------------------------------------------------------

  datatype Entry = Entry(key: string, value: bool)

  predicate DistinctKeys(entries: seq<Entry>)
  {
    forall i, j :: 0 <= i < j < |entries| ==> entries[i].key != entries[j].key
  }

  /** `Record<string, boolean>`: the row-selection state of the table. */
  type Record = r: seq<Entry> | DistinctKeys(r) witness []

  /** The keys in order (`Object.keys`). */
  function KeysOf(r: seq<Entry>): (ks: seq<string>)
    ensures |ks| == |r|
    ensures forall i :: 0 <= i < |r| ==> ks[i] == r[i].key
  {
    if r == [] then [] else [r[0].key] + KeysOf(r[1..])
  }

  /** A key is in the record exactly when it carries one of the two values. */
  lemma KeysMembership(r: seq<Entry>, k: string)
    ensures k in KeysOf(r) <==> Entry(k, true) in r || Entry(k, false) in r
  {
    if k in KeysOf(r) {
      var i :| 0 <= i < |r| && KeysOf(r)[i] == k;
      assert r[i] == Entry(k, r[i].value);
    }
    if Entry(k, true) in r {
      var i :| 0 <= i < |r| && r[i] == Entry(k, true);
      assert KeysOf(r)[i] == k;
    }
    if Entry(k, false) in r {
      var i :| 0 <= i < |r| && r[i] == Entry(k, false);
      assert KeysOf(r)[i] == k;
    }
  }

  /** In a record a key carries at most one value. */
  lemma OneValuePerKey(r: Record, k: string)
    ensures Entry(k, true) in r ==> Entry(k, false) !in r
  {
    if Entry(k, true) in r {
      var i :| 0 <= i < |r| && r[i] == Entry(k, true);
      forall j | 0 <= j < |r| ensures r[j] != Entry(k, false) {
        if r[j].key == k {
          assert j == i;
        }
      }
    }
  }

  /** `record[key]`, None when the key is absent. */
  function Lookup(r: Record, k: string): (v: Option<bool>)
    ensures v.None? <==> k !in KeysOf(r)
    ensures v == Some(true) <==> Entry(k, true) in r
    ensures v == Some(false) <==> Entry(k, false) in r
  {
    KeysMembership(r, k);
    OneValuePerKey(r, k);
    if Entry(k, true) in r then Some(true)
    else if Entry(k, false) in r then Some(false)
    else None
  }

  /** Distinct keys are keys without duplicates. */
  lemma DistinctKeysAreNoDuplicates(r: seq<Entry>)
    ensures DistinctKeys(r) <==> NoDuplicates(KeysOf(r))
  {
  }

  /** The entries of `{ ...r, [k]: v }` in order. */
  function PutEntries(r: seq<Entry>, k: string, v: bool): seq<Entry>
  {
    if r == [] then [Entry(k, v)]
    else if r[0].key == k then [Entry(k, v)] + r[1..]
    else [r[0]] + PutEntries(r[1..], k, v)
  }

  lemma {:induction false} PutEntriesKeys(r: seq<Entry>, k: string, v: bool)
    ensures KeysOf(PutEntries(r, k, v)) == if k in KeysOf(r) then KeysOf(r) else KeysOf(r) + [k]
  {
    if r != [] {
      var p := PutEntries(r, k, v);
      assert KeysOf(r) == [r[0].key] + KeysOf(r[1..]);
      if r[0].key == k {
        assert KeysOf(p) == [k] + KeysOf(r[1..]);
      } else {
        PutEntriesKeys(r[1..], k, v);
        assert KeysOf(p) == [r[0].key] + KeysOf(PutEntries(r[1..], k, v));
      }
    }
  }

  lemma {:induction false} PutEntriesMembers(r: Record, k: string, v: bool)
    ensures forall e :: e in PutEntries(r, k, v) <==> e == Entry(k, v) || (e in r && e.key != k)
  {
    if r != [] {
      assert forall e :: e in r <==> e == r[0] || e in r[1..];
      if r[0].key == k {
        assert forall e :: e in r[1..] ==> e.key != k;
      } else {
        PutEntriesMembers(r[1..], k, v);
      }
    }
  }

  /** `{ ...r, [k]: v }`: an existing key keeps its place, a new one is
      appended, and no other key changes. */
  function Put(r: Record, k: string, v: bool): (r': Record)
    ensures Lookup(r', k) == Some(v)
    ensures forall k' :: k' != k ==> Lookup(r', k') == Lookup(r, k')
    ensures KeysOf(r') == if k in KeysOf(r) then KeysOf(r) else KeysOf(r) + [k]
  {
    PutEntriesKeys(r, k, v);
    PutLookups(r, k, v);
    PutEntries(r, k, v)
  }

  lemma PutEntriesDistinct(r: Record, k: string, v: bool)
    ensures DistinctKeys(PutEntries(r, k, v))
  {
    PutEntriesKeys(r, k, v);
    DistinctKeysAreNoDuplicates(r);
    DistinctKeysAreNoDuplicates(PutEntries(r, k, v));
  }

  lemma PutLookups(r: Record, k: string, v: bool)
    ensures DistinctKeys(PutEntries(r, k, v))
    ensures forall k' :: Lookup(PutEntries(r, k, v), k') == if k' == k then Some(v) else Lookup(r, k')
  {
    PutEntriesDistinct(r, k, v);
    PutEntriesMembers(r, k, v);
    forall k' ensures Lookup(PutEntries(r, k, v), k') == if k' == k then Some(v) else Lookup(r, k') {
      OneValuePerKey(r, k');
    }
  }

  /** `arrayToRecord`: `arr.reduce((acc, id) => ({ ...acc, [id]: true }), {})`. */
  function ArrayToRecord(arr: seq<string>): (r: Record)
    ensures forall k :: Lookup(r, k) == if k in arr then Some(true) else None
    ensures KeysOf(r) == Dedup(arr)
  {
    if arr == [] then []
    else
      assert forall k :: k in arr <==> k in arr[..|arr| - 1] || k == arr[|arr| - 1];
      Put(ArrayToRecord(arr[..|arr| - 1]), arr[|arr| - 1], true)
  }

  /** `recordToArray`: the keys mapped to true, in key order. */
  function RecordToArray(r: Record): (ids: seq<string>)
    ensures forall k :: k in ids <==> Entry(k, true) in r
    ensures NoDuplicates(ids)
  {
    if r == [] then []
    else
      var rest := RecordToArray(r[1..]);
      assert forall e :: e in r <==> e == r[0] || e in r[1..];
      assert Entry(r[0].key, true) !in r[1..] by {
        KeysMembership(r[1..], r[0].key);
      }
      (if r[0].value then [r[0].key] else []) + rest
  }

  /** The entries of `r` mapped to true, in order. */
  function TrueEntriesOf(r: seq<Entry>): seq<Entry>
  {
    if r == [] then []
    else (if r[0].value then [r[0]] else []) + TrueEntriesOf(r[1..])
  }

  lemma TrueEntriesFacts(r: Record)
    ensures forall e :: e in TrueEntriesOf(r) <==> e in r && e.value
    ensures KeysOf(TrueEntriesOf(r)) == RecordToArray(r)
    ensures DistinctKeys(TrueEntriesOf(r))
  {
    TrueEntriesMembers(r);
    TrueEntriesKeys(r);
    DistinctKeysAreNoDuplicates(TrueEntriesOf(r));
  }

  lemma {:induction false} TrueEntriesMembers(r: seq<Entry>)
    ensures forall e :: e in TrueEntriesOf(r) <==> e in r && e.value
  {
    if r != [] {
      TrueEntriesMembers(r[1..]);
      assert forall e :: e in r <==> e == r[0] || e in r[1..];
    }
  }

  lemma {:induction false} TrueEntriesKeys(r: Record)
    ensures KeysOf(TrueEntriesOf(r)) == RecordToArray(r)
  {
    if r != [] {
      TrueEntriesKeys(r[1..]);
      var rest := TrueEntriesOf(r[1..]);
      if r[0].value {
        assert KeysOf([r[0]] + rest) == [r[0].key] + KeysOf(rest);
      } else {
        assert TrueEntriesOf(r) == rest;
      }
    }
  }

  /** The entries mapped to true, in order: the record without its false
      entries. */
  function TrueEntries(r: Record): (t: Record)
    ensures forall e :: e in t <==> e in r && e.value
    ensures KeysOf(t) == RecordToArray(r)
  {
    TrueEntriesFacts(r);
    TrueEntriesOf(r)
  }

  /** Every key of an all-true record comes back from RecordToArray, in order. */
  lemma {:induction false} AllTrueToArray(r: Record)
    requires forall i :: 0 <= i < |r| ==> r[i].value
    ensures RecordToArray(r) == KeysOf(r)
  {
    if r != [] {
      AllTrueToArray(r[1..]);
    }
  }

  /** The entries of ArrayToRecord are all true. */
  lemma AllTrueEntries(ids: seq<string>)
    ensures forall i :: 0 <= i < |ArrayToRecord(ids)| ==> ArrayToRecord(ids)[i].value
  {
    var r := ArrayToRecord(ids);
    forall i | 0 <= i < |r| ensures r[i].value {
      assert r[i].key in KeysOf(r);
      assert Lookup(r, r[i].key) == Some(true);
      var j :| 0 <= j < |r| && r[j] == Entry(r[i].key, true);
      assert j == i;
    }
  }

  /** A record whose keys and values are determined is determined. */
  lemma AllTrueWithKeys(r: Record, t: Record)
    requires forall i :: 0 <= i < |r| ==> r[i].value
    requires forall i :: 0 <= i < |t| ==> t[i].value
    requires KeysOf(r) == KeysOf(t)
    ensures r == t
  {
    assert |r| == |t|;
    forall i | 0 <= i < |r| ensures r[i] == t[i] {
      assert KeysOf(r)[i] == KeysOf(t)[i];
    }
  }

  /** Round trip from the outside in and back: the ids come back once each,
      in first-occurrence order, so as a set they are exactly the input. */
  lemma RoundTripFromArray(ids: seq<string>)
    ensures RecordToArray(ArrayToRecord(ids)) == Dedup(ids)
    ensures forall k :: k in RecordToArray(ArrayToRecord(ids)) <==> k in ids
  {
    AllTrueEntries(ids);
    AllTrueToArray(ArrayToRecord(ids));
  }

  /** For distinct ids the round trip returns the ids themselves. */
  lemma RoundTripFromDistinctArray(ids: seq<string>)
    requires NoDuplicates(ids)
    ensures RecordToArray(ArrayToRecord(ids)) == ids
  {
    RoundTripFromArray(ids);
    DedupOfDistinct(ids);
  }

  /** Round trip from the inside out and back: the false entries are dropped
      and the true ones kept, in order. */
  lemma RoundTripFromRecord(r: Record)
    ensures ArrayToRecord(RecordToArray(r)) == TrueEntries(r)
    ensures RecordToArray(ArrayToRecord(RecordToArray(r))) == RecordToArray(r)
  {
    var ids := RecordToArray(r);
    var t := TrueEntries(r);
    AllTrueEntries(ids);
    DedupOfDistinct(ids);
    forall i | 0 <= i < |t| ensures t[i].value {
      assert t[i] in t;
    }
    AllTrueWithKeys(ArrayToRecord(ids), t);
    RoundTripFromDistinctArray(ids);
  }

  /** The set of selected ids. */
  ghost function SelectedIds(r: Record): (ids: set<string>)
    ensures ids == set k | k in RecordToArray(r)
  {
    set k | k in KeysOf(r) && Lookup(r, k) == Some(true)
  }

  /** `Object.keys(internalRowSelection).filter(k => internalRowSelection[k]).length`. */
  function SelectedRowCount(r: Record): (n: nat)
    ensures n == |SelectedIds(r)|
  {
    var ids := RecordToArray(r);
    DistinctCardinality(ids);
    |ids|
  }

  /** The bulk-action bar is rendered only when the caller supplies one and
      at least one row is selected. */
  function ShowsBulkActionBar(hasBar: bool, r: Record): (shown: bool)
    ensures shown <==> hasBar && SelectedIds(r) != {}
  {
    hasBar && SelectedRowCount(r) > 0
  }

  /** What the table's row-selection callback receives: a new record, or a
      function from the previous record to the new one. */
  datatype SelectionUpdate = Replace(value: Record) | Updater(f: Record -> Record)

  function Apply(u: SelectionUpdate, prev: Record): Record
  {
    match u
    case Replace(v) => v
    case Updater(f) => f(prev)
  }

  /** The table's internal selection state, with the calls made so far to the
      caller's `onSelectedRowsChange` recorded in `notified`. */
  class SelectionBridge {
    var internal: Record
    var notified: seq<seq<string>>

    /** `useState(() => arrayToRecord(externalRowSelection))`; an absent prop
        is read as the empty array. */
    constructor (external: Option<seq<string>>)
      ensures internal == ArrayToRecord(external.GetOr([]))
      ensures notified == []
    {
      internal := ArrayToRecord(external.GetOr([]));
      notified := [];
    }

    /** The effect run when the `rowSelection` prop changes: a defined prop
        replaces the record; the callback is not called. */
    method SyncFromProp(external: Option<seq<string>>)
      modifies this
      ensures external.Some? ==> internal == ArrayToRecord(external.value)
      ensures external.None? ==> internal == old(internal)
      ensures notified == old(notified)
    {
      if external.Some? {
        internal := ArrayToRecord(external.value);
      }
    }

    /** `handleRowSelectionChange`: stores the new record and, when the caller
        gave a callback, calls it exactly once with the record's ids. */
    method HandleRowSelectionChange(u: SelectionUpdate, hasCallback: bool)
      modifies this
      ensures internal == Apply(u, old(internal))
      ensures notified == old(notified) + (if hasCallback then [RecordToArray(internal)] else [])
    {
      var newSelection := match u
        case Replace(v) => v
        case Updater(f) => f(internal);
      if hasCallback {
        var selectedIds := RecordToArray(newSelection);
        notified := notified + [selectedIds];
      }
      internal := newSelection;
    }
  }

  /** A client of the bridge: the user changes the selection, the caller
      stores the ids it is told about and passes them back as the prop. The
      selected ids survive the trip; only false entries are dropped. */
  method ChangeAndFeedBack(b: SelectionBridge, u: SelectionUpdate)
    modifies b
    ensures |b.notified| == |old(b.notified)| + 1
    ensures RecordToArray(b.internal) == RecordToArray(Apply(u, old(b.internal)))
    ensures b.internal == TrueEntries(Apply(u, old(b.internal)))
  {
    b.HandleRowSelectionChange(u, true);
    var ids := b.notified[|b.notified| - 1];
    b.SyncFromProp(Some(ids));
    RoundTripFromRecord(Apply(u, old(b.internal)));
  }

  // ---------------------------------------------------------------------
  // Columns, pinning, body state, row identity
  // ---------------------------------------------------------------------

  /** The parts of a column definition the table itself sets. */
  datatype ColumnDef = ColumnDef(id: string, enableSorting: bool, enableHiding: bool, size: Option<int>)

  /** The checkbox column the table adds for row selection. */
  const SelectionColumn: ColumnDef := ColumnDef("select", false, false, Some(32))

  /** `columnsWithSelection`: the checkbox column is put first exactly when
      the caller passes a `rowSelection` prop, even an empty one. */
  function ColumnsWithSelection(columns: seq<ColumnDef>, external: Option<seq<string>>): (r: seq<ColumnDef>)
    ensures |r| == |columns| + (if external.Some? then 1 else 0)
    ensures r[|r| - |columns|..] == columns
    ensures external.Some? ==> r[0].id == "select" && !r[0].enableSorting && !r[0].enableHiding
  {
    if external.Some? then [SelectionColumn] + columns else columns
  }

  datatype Pin = Unpinned | PinnedLeft | PinnedRight
  datatype Position = Relative | Sticky

  /** The inline style of a header or body cell. Offsets are in pixels,
      opacity in hundredths. */
  datatype PinningStyle = PinningStyle(
    boxShadow: Option<string>, left: Option<int>, right: Option<int>,
    opacityPercent: int, position: Position, width: int, zIndex: int)

  /** `getCommonPinningStyles`; the TanStack column queries (pinned side, last
      left-pinned, first right-pinned, start and after offsets, size) are
      parameters. */
  function CommonPinningStyles(pin: Pin, isLastLeft: bool, isFirstRight: bool,
                               startLeft: int, afterRight: int, size: int): (s: PinningStyle)
    ensures s.position == Sticky <==> pin != Unpinned
    ensures pin != Unpinned ==> s.zIndex == 1 && s.opacityPercent == 95
    ensures pin == Unpinned ==> s.zIndex == 0 && s.opacityPercent == 100
    ensures s.left.Some? <==> pin == PinnedLeft
    ensures s.left.Some? ==> s.left.value == startLeft
    ensures s.right.Some? <==> pin == PinnedRight
    ensures s.right.Some? ==> s.right.value == afterRight
    ensures s.boxShadow.Some? <==> (pin == PinnedLeft && isLastLeft) || (pin == PinnedRight && isFirstRight)
    ensures s.width == size
  {
    var lastLeft := pin == PinnedLeft && isLastLeft;
    var firstRight := pin == PinnedRight && isFirstRight;
    PinningStyle(
      if lastLeft then Some("-1px 0 1px -1px gray inset")
      else if firstRight then Some("1px 0 1px -1px gray inset")
      else None,
      if pin == PinnedLeft then Some(startLeft) else None,
      if pin == PinnedRight then Some(afterRight) else None,
      if pin != Unpinned then 95 else 100,
      if pin != Unpinned then Sticky else Relative,
      size,
      if pin != Unpinned then 1 else 0)
  }

  /** What the table body shows. */
  datatype Body = RowsBody | SpinnerCell(colSpan: nat) | NoResultsCell(colSpan: nat, text: string)

  /** The body as written: the rows when there are any, otherwise a
      spinner while loading, otherwise "No results."; the single cell spans
      `columns.length`, the caller's columns, even when the table has put
      the checkbox column in front of them. */
  function BodyStateAsWritten(rowCount: nat, tableLoading: Option<bool>, callerColumns: seq<ColumnDef>): (b: Body)
    ensures b.RowsBody? <==> rowCount > 0
    ensures b.SpinnerCell? <==> rowCount == 0 && tableLoading == Some(true)
    ensures b.NoResultsCell? ==> b.text == "No results."
    ensures !b.RowsBody? ==> b.colSpan == |callerColumns|
  {
    if rowCount > 0 then RowsBody
    else if tableLoading.GetOr(false) then SpinnerCell(|callerColumns|)
    else NoResultsCell(|callerColumns|, "No results.")
  }

  /** The body with the single cell spanning every column of the table,
      the checkbox column included. */
  function BodyState(rowCount: nat, tableLoading: Option<bool>, callerColumns: seq<ColumnDef>,
                     external: Option<seq<string>>): (b: Body)
    ensures b.RowsBody? <==> rowCount > 0
    ensures b.SpinnerCell? <==> rowCount == 0 && tableLoading == Some(true)
    ensures b.NoResultsCell? ==> b.text == "No results."
    ensures !b.RowsBody? ==> b.colSpan == |ColumnsWithSelection(callerColumns, external)|
  {
    var width := |callerColumns| + (if external.Some? then 1 else 0);
    if rowCount > 0 then RowsBody
    else if tableLoading.GetOr(false) then SpinnerCell(width)
    else NoResultsCell(width, "No results.")
  }

  /** With row selection on, the cell as written stops one column short of
      the table's width; the corrected cell spans it, and the two agree
      whenever there is no checkbox column. */
  lemma EmptyBodyOneColumnShort(tableLoading: Option<bool>, callerColumns: seq<ColumnDef>, external: Option<seq<string>>)
    ensures external.Some? ==>
      BodyStateAsWritten(0, tableLoading, callerColumns).colSpan + 1 == |ColumnsWithSelection(callerColumns, external)|
    ensures BodyState(0, tableLoading, callerColumns, external).colSpan == |ColumnsWithSelection(callerColumns, external)|
    ensures external.None? ==> BodyState(0, tableLoading, callerColumns, external) == BodyStateAsWritten(0, tableLoading, callerColumns)
  {
  }

  /** The row as the table sees it: its optional `id` field. */
  datatype RowObject = RowObject(id: Option<string>)

  /** `String(originalRow)` for a plain object. */
  const ObjectString: string := "[object Object]"

  /** `getRowId`: the row's id, else the string conversion of the row. */
  function GetRowId(row: RowObject): (id: string)
    ensures row.id.Some? ==> id == row.id.value
    ensures row.id.None? ==> id == ObjectString
  {
    row.id.GetOr(ObjectString)
  }

  /** Rows with ids are told apart by their ids; all rows without one share
      the same row id. */
  lemma RowIdentity(a: RowObject, b: RowObject)
    ensures a.id.Some? && b.id.Some? ==> (GetRowId(a) == GetRowId(b) <==> a.id == b.id)
    ensures a.id.None? && b.id.None? ==> GetRowId(a) == GetRowId(b) == "[object Object]"
  {
  }
}
