/** What the expense and payment server actions share: the signed-in user
    gate, the shape of a store response, the list query the paginated
    `get…` actions build, and the rule that a path is revalidated only after
    a write that succeeded. The store itself is a parameter: a function from
    the query an action builds to the response it gets. */
module Actions {
  import opened Wrappers

  /** The user `auth.getUser()` returns, when there is one. */
  datatype User = User(id: string)

  const Unauthorized: string := "Unauthorized"

  /** A store response: the rows (or row) and the error's message, each
      possibly absent. */
  datatype StoreResult<T> = StoreResult(data: Option<T>, error: Option<string>)

  // ---------------------------------------------------------------------
  // The paginated list query

  /** The request's `dateRange`, both ends optional. */
  datatype DateRangeParam = DateRangeParam(from: Option<string>, to: Option<string>)

  /** The optional `params` of `getExpenses` and `getPayments`. */
  datatype ListParams = ListParams(dateRange: Option<DateRangeParam>, page: Option<int>, pageSize: Option<int>)

  const DefaultPage: int := 0
  const DefaultPageSize: int := 10

  /** `params?.page ?? 0`. */
  function PageOf(params: Option<ListParams>): (page: int)
    ensures params.Some? && params.value.page.Some? ==> page == params.value.page.value
    ensures params.None? || params.value.page.None? ==> page == DefaultPage
  {
    if params.Some? then params.value.page.GetOr(DefaultPage) else DefaultPage
  }

  /** `params?.pageSize ?? 10`. */
  function PageSizeOf(params: Option<ListParams>): (pageSize: int)
    ensures params.Some? && params.value.pageSize.Some? ==> pageSize == params.value.pageSize.value
    ensures params.None? || params.value.pageSize.None? ==> pageSize == DefaultPageSize
  {
    if params.Some? then params.value.pageSize.GetOr(DefaultPageSize) else DefaultPageSize
  }

  /** The inclusive row range `.range(from, to)` asks for. */
  datatype RowRange = RowRange(from: int, to: int)

  function RangeOf(page: int, pageSize: int): (r: RowRange)
    ensures r.to - r.from + 1 == pageSize
  {
    var from := page * pageSize;
    RowRange(from, from + pageSize - 1)
  }

  /** Consecutive pages adjoin: each starts just after the previous ends. */
  lemma RangesAdjoin(page: int, pageSize: int)
    ensures RangeOf(page + 1, pageSize).from == RangeOf(page, pageSize).to + 1
  {
    assert (page + 1) * pageSize == page * pageSize + pageSize;
  }

  /** With a positive page size, row `i` lies in exactly one page's range,
      page `i / pageSize`. */
  lemma RowInOneRange(i: nat, pageSize: int, page: int)
    requires pageSize > 0
    ensures RangeOf(page, pageSize).from <= i <= RangeOf(page, pageSize).to <==> page == i / pageSize
  {
    var q := i / pageSize;
    assert q * pageSize + i % pageSize == i;
    if page < q {
      PagesApart(page, q, pageSize);
    } else if page > q {
      PagesApart(q, page, pageSize);
    }
  }

  /** A later page starts at least a whole page further on. */
  lemma PagesApart(a: int, b: int, pageSize: int)
    requires a < b && pageSize > 0
    ensures a * pageSize + pageSize <= b * pageSize
  {
    var d := b - a;
    assert b * pageSize == a * pageSize + d * pageSize;
    AtLeastOnce(d, pageSize);
  }

  lemma {:induction false} AtLeastOnce(d: int, c: int)
    requires d >= 1 && c > 0
    ensures d * c >= c
    decreases d
  {
    if d > 1 {
      AtLeastOnce(d - 1, c);
      assert d * c == (d - 1) * c + c;
    }
  }

  /** Both ends of the date filter, when it applies. */
  datatype DateBounds = DateBounds(from: string, to: string)

  /** `params?.dateRange?.from && params?.dateRange?.to`: the filter applies
      only when both ends are present and non-empty. */
  function DateFilterOf(params: Option<ListParams>): (b: Option<DateBounds>)
    ensures b.Some? <==>
      params.Some? && params.value.dateRange.Some? &&
      params.value.dateRange.value.from.Some? && params.value.dateRange.value.from.value != "" &&
      params.value.dateRange.value.to.Some? && params.value.dateRange.value.to.value != ""
    ensures b.Some? ==>
      b.value == DateBounds(params.value.dateRange.value.from.value, params.value.dateRange.value.to.value)
  {
    if params.Some? && params.value.dateRange.Some? then
      var r := params.value.dateRange.value;
      if r.from.Some? && r.from.value != "" && r.to.Some? && r.to.value != "" then
        Some(DateBounds(r.from.value, r.to.value))
      else None
    else None
  }

  /** The filter both queries carry: the user's rows, and the dates between
      the bounds (inclusive) when there are bounds. */
  datatype RowFilter = RowFilter(userId: string, dateBetween: Option<DateBounds>)

  /** The exact-count query (`head: true`, no rows returned). */
  datatype CountQuery = CountQuery(table: string, filter: RowFilter)

  /** The data query: selected columns, the filter, newest date first, and
      the row range of the page. */
  datatype DataQuery = DataQuery(table: string, columns: string, filter: RowFilter,
                                 newestFirst: bool, range: RowRange)

  /** The two queries a `get…` list action builds. */
  function ListQueries(table: string, columns: string, user: User, params: Option<ListParams>): (q: (CountQuery, DataQuery))
    ensures q.0.table == table && q.1.table == table && q.1.columns == columns
    ensures q.0.filter == q.1.filter
    ensures q.0.filter.userId == user.id && q.0.filter.dateBetween == DateFilterOf(params)
    ensures q.1.newestFirst
    ensures q.1.range.from == PageOf(params) * PageSizeOf(params)
    ensures q.1.range.to - q.1.range.from + 1 == PageSizeOf(params)
  {
    var filter := RowFilter(user.id, DateFilterOf(params));
    (CountQuery(table, filter), DataQuery(table, columns, filter, true, RangeOf(PageOf(params), PageSizeOf(params))))
  }

  /** What a list action returns. */
  datatype ListReply<R> = ListReply(data: Option<seq<R>>, error: Option<string>, count: int)

  /** A paginated list action: unauthorized without a user; otherwise the
      rows and error of the data query and the exact count, 0 when the
      count query yields none. */
  function List<R>(table: string, columns: string, user: Option<User>, params: Option<ListParams>,
                   countStore: CountQuery -> Option<int>, dataStore: DataQuery -> StoreResult<seq<R>>): (r: ListReply<R>)
    ensures user.None? ==> r == ListReply(None, Some(Unauthorized), 0)
    ensures user.Some? ==>
      var (cq, dq) := ListQueries(table, columns, user.value, params);
      r.data == dataStore(dq).data && r.error == dataStore(dq).error &&
      (countStore(cq).Some? ==> r.count == countStore(cq).value) &&
      (countStore(cq).None? ==> r.count == 0)
  {
    match user
    case None => ListReply(None, Some(Unauthorized), 0)
    case Some(u) =>
      var (cq, dq) := ListQueries(table, columns, u, params);
      var response := dataStore(dq);
      ListReply(response.data, response.error, countStore(cq).GetOr(0))
  }

  // ---------------------------------------------------------------------
  // What a range selects from the matching rows

  function Min(a: int, b: int): int
  {
    if a <= b then a else b
  }

  /** The rows at positions `from` to `to` of the matching rows in the
      store's order, fewer when the rows run out. */
  function RangeRows<R>(ordered: seq<R>, r: RowRange): (rows: seq<R>)
    requires 0 <= r.from <= r.to + 1
  {
    if r.from < |ordered| then ordered[r.from..Min(r.to + 1, |ordered|)] else []
  }

  /** Page `page` of the matching rows. */
  function PageRows<R>(ordered: seq<R>, page: nat, pageSize: nat): seq<R>
  {
    RangeRows(ordered, RangeOf(page, pageSize))
  }

  /** Pages 0 to k - 1, one after another. */
  function FirstPages<R>(ordered: seq<R>, k: nat, pageSize: nat): seq<R>
  {
    if k == 0 then [] else FirstPages(ordered, k - 1, pageSize) + PageRows(ordered, k - 1, pageSize)
  }

  /** Reading the pages in order yields the matching rows in order, with no
      row skipped or repeated. */
  lemma {:induction false} PagesTile<R>(ordered: seq<R>, k: nat, pageSize: nat)
    ensures FirstPages(ordered, k, pageSize) == ordered[..Min(k * pageSize, |ordered|)]
  {
    if k > 0 {
      PagesTile(ordered, k - 1, pageSize);
      var lo := (k - 1) * pageSize;
      assert lo + pageSize == k * pageSize;
      NextRangeExtends(ordered, lo, lo + pageSize);
    }
  }

  /** The rows before `lo` followed by the range lo..hi - 1 are the rows
      before `hi`. */
  lemma NextRangeExtends<R>(ordered: seq<R>, lo: nat, hi: nat)
    requires lo <= hi
    ensures ordered[..Min(lo, |ordered|)] + RangeRows(ordered, RowRange(lo, hi - 1)) == ordered[..Min(hi, |ordered|)]
  {
    if lo < |ordered| {
      assert ordered[..lo] + ordered[lo..Min(hi, |ordered|)] == ordered[..Min(hi, |ordered|)];
    }
  }

  /** Each matching row is on page `i / pageSize`, at position `i % pageSize`. */
  lemma RowOnItsPage<R>(ordered: seq<R>, i: nat, pageSize: nat)
    requires i < |ordered| && pageSize > 0
    ensures i % pageSize < |PageRows(ordered, i / pageSize, pageSize)|
    ensures PageRows(ordered, i / pageSize, pageSize)[i % pageSize] == ordered[i]
  {
    var q := i / pageSize;
    assert q * pageSize + i % pageSize == i;
    assert RangeOf(q, pageSize) == RowRange(q * pageSize, q * pageSize + pageSize - 1);
  }

  // ---------------------------------------------------------------------
  // Single-row actions

  /** What get-by-id, create and update return. */
  datatype ItemReply<R> = ItemReply(data: Option<R>, error: Option<string>)

  /** A write's reply and the paths revalidated after it. */
  datatype WriteOutcome<R> = WriteOutcome(reply: ItemReply<R>, revalidated: seq<string>)

  /** What delete returns. */
  datatype DeleteOutcome = DeleteOutcome(error: Option<string>, revalidated: seq<string>)

  /** The rows an update, delete or get-by-id touches: this id, this user. */
  datatype RowKey = RowKey(id: string, userId: string)

  /** After a write: the store's response is passed back, and the paths are
      revalidated only when there was no error. */
  function AfterWrite<R>(response: StoreResult<R>, paths: seq<string>): (o: WriteOutcome<R>)
    ensures o.reply == ItemReply(response.data, response.error)
    ensures response.error.None? ==> o.revalidated == paths
    ensures response.error.Some? ==> o.revalidated == []
  {
    WriteOutcome(ItemReply(response.data, response.error), if response.error.None? then paths else [])
  }

  /** The outcome of a write attempted without a user: nothing written,
      nothing revalidated. */
  function UnauthorizedWrite<R>(): (o: WriteOutcome<R>)
    ensures o.reply.data.None? && o.reply.error == Some(Unauthorized) && o.revalidated == []
  {
    WriteOutcome(ItemReply(None, Some(Unauthorized)), [])
  }
}
