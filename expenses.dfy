/** The expense server actions: the paginated list, get by id, create,
    update and delete, each behind the signed-in user gate. */
module Expenses {
  import opened Wrappers
  import opened Actions

  const Table: string := "expenses"
  /** The list and get-by-id select the expense with its category's id and name. */
  const WithCategory: string := "*, category:categories(id, name)"
  const ListPath: string := "/expenses"

  function EditPath(id: string): string
  {
    "/expenses/" + id + "/edit"
  }

  /** The form fields a create or update receives. */
  datatype ExpenseForm = ExpenseForm(name: string, categoryId: string, amount: int, date: string)

  /** The record inserted: the form's fields and the owner. */
  datatype ExpenseInsert = ExpenseInsert(name: string, categoryId: string, amount: int, date: string, userId: string)

  /** The record an update writes: the form's fields and no owner. */
  datatype ExpenseUpdate = ExpenseUpdate(name: string, categoryId: string, amount: int, date: string)

  function InsertOf(form: ExpenseForm, user: User): (rec: ExpenseInsert)
    ensures rec.userId == user.id
    ensures rec.name == form.name && rec.categoryId == form.categoryId &&
            rec.amount == form.amount && rec.date == form.date
  {
    ExpenseInsert(form.name, form.categoryId, form.amount, form.date, user.id)
  }

  function UpdateOf(form: ExpenseForm): (rec: ExpenseUpdate)
    ensures rec.name == form.name && rec.categoryId == form.categoryId &&
            rec.amount == form.amount && rec.date == form.date
  {
    ExpenseUpdate(form.name, form.categoryId, form.amount, form.date)
  }

  /** `getExpenses(params)`: unauthorized with count 0 without a user, else
      the page of the user's expenses (newest first, within the date range
      when both ends are given) and their exact count. */
  function GetExpenses<R>(user: Option<User>, params: Option<ListParams>,
                          countStore: CountQuery -> Option<int>,
                          dataStore: DataQuery -> StoreResult<seq<R>>): (r: ListReply<R>)
    ensures user.None? ==> r.data.None? && r.error == Some(Unauthorized) && r.count == 0
    ensures user.Some? ==>
      var filter := RowFilter(user.value.id, DateFilterOf(params));
      var from := PageOf(params) * PageSizeOf(params);
      var response := dataStore(DataQuery(Table, WithCategory, filter, true, RowRange(from, from + PageSizeOf(params) - 1)));
      r.data == response.data && r.error == response.error &&
      r.count == countStore(CountQuery(Table, filter)).GetOr(0)
  {
    List(Table, WithCategory, user, params, countStore, dataStore)
  }

  /** `getExpenseById(id)`: the one expense with this id owned by the user. */
  function GetExpenseById<R>(user: Option<User>, id: string, store: RowKey -> StoreResult<R>): (r: ItemReply<R>)
    ensures user.None? ==> r == ItemReply(None, Some(Unauthorized))
    ensures user.Some? ==> r == ItemReply(store(RowKey(id, user.value.id)).data, store(RowKey(id, user.value.id)).error)
  {
    match user
    case None => ItemReply(None, Some(Unauthorized))
    case Some(u) =>
      var response := store(RowKey(id, u.id));
      ItemReply(response.data, response.error)
  }

  /** `createExpense(form)`: inserts the form's fields owned by the user,
      revalidating the list page on success. */
  function CreateExpense<R>(user: Option<User>, form: ExpenseForm, store: ExpenseInsert -> StoreResult<R>): (o: WriteOutcome<R>)
    ensures user.None? ==> o == UnauthorizedWrite()
    ensures user.Some? ==>
      var response := store(InsertOf(form, user.value));
      o.reply == ItemReply(response.data, response.error) &&
      (response.error.None? ==> o.revalidated == [ListPath]) &&
      (response.error.Some? ==> o.revalidated == [])
  {
    match user
    case None => UnauthorizedWrite()
    case Some(u) => AfterWrite(store(InsertOf(form, u)), [ListPath])
  }

  /** `updateExpense(id, form)`: writes the form's fields to the user's
      expense with this id, revalidating the list and its edit page on
      success. */
  function UpdateExpense<R>(user: Option<User>, id: string, form: ExpenseForm,
                            store: (RowKey, ExpenseUpdate) -> StoreResult<R>): (o: WriteOutcome<R>)
    ensures user.None? ==> o == UnauthorizedWrite()
    ensures user.Some? ==>
      var response := store(RowKey(id, user.value.id), UpdateOf(form));
      o.reply == ItemReply(response.data, response.error) &&
      (response.error.None? ==> o.revalidated == [ListPath, EditPath(id)]) &&
      (response.error.Some? ==> o.revalidated == [])
  {
    match user
    case None => UnauthorizedWrite()
    case Some(u) => AfterWrite(store(RowKey(id, u.id), UpdateOf(form)), [ListPath, EditPath(id)])
  }

  /** `deleteExpense(id)`: deletes the user's expense with this id; the
      reply carries only the error, and the list is revalidated on success. */
  function DeleteExpense(user: Option<User>, id: string, store: RowKey -> Option<string>): (o: DeleteOutcome)
    ensures user.None? ==> o == DeleteOutcome(Some(Unauthorized), [])
    ensures user.Some? ==> o.error == store(RowKey(id, user.value.id))
    ensures user.Some? ==> (o.revalidated == [ListPath] <==> o.error.None?)
    ensures o.error.Some? ==> o.revalidated == []
  {
    match user
    case None => DeleteOutcome(Some(Unauthorized), [])
    case Some(u) =>
      var error := store(RowKey(id, u.id));
      DeleteOutcome(error, if error.None? then [ListPath] else [])
  }

  // ---------------------------------------------------------------------
  // What the writes do to a stored row

  /** A stored expense row. */
  datatype ExpenseRow = ExpenseRow(id: string, name: string, categoryId: string, amount: int, date: string, userId: string)

  /** The row an insert stores under a new id. */
  function Stored(id: string, rec: ExpenseInsert): ExpenseRow
  {
    ExpenseRow(id, rec.name, rec.categoryId, rec.amount, rec.date, rec.userId)
  }

  /** The rows an update or delete with this key touches. */
  predicate Touches(key: RowKey, row: ExpenseRow)
  {
    row.id == key.id && row.userId == key.userId
  }

  /** An update sets the four form fields and keeps the id and the owner. */
  function ApplyUpdate(row: ExpenseRow, rec: ExpenseUpdate): ExpenseRow
  {
    row.(name := rec.name, categoryId := rec.categoryId, amount := rec.amount, date := rec.date)
  }

  /** Updating an expense with a new form leaves it as though it had been
      created from that form by the same owner. */
  lemma UpdateKeepsOwner(id: string, user: User, created: ExpenseForm, edited: ExpenseForm)
    ensures ApplyUpdate(Stored(id, InsertOf(created, user)), UpdateOf(edited)) == Stored(id, InsertOf(edited, user))
  {
  }

  // ---------------------------------------------------------------------
  // The expenses table under the writes' `.eq("id", id).eq("user_id", …)`

  /** What an update filtered by `key` does to the table: the rows it touches
      get the form's fields, every other row stays as it was. */
  function UpdateRows(table: seq<ExpenseRow>, key: RowKey, rec: ExpenseUpdate): (t: seq<ExpenseRow>)
    ensures |t| == |table|
    ensures forall i :: 0 <= i < |t| ==> t[i].id == table[i].id && t[i].userId == table[i].userId
  {
    seq(|table|, i requires 0 <= i < |table| =>
      if Touches(key, table[i]) then ApplyUpdate(table[i], rec) else table[i])
  }

  /** What a delete filtered by `key` does to the table: exactly the rows it
      touches are removed, the others kept in order. */
  function DeleteRows(table: seq<ExpenseRow>, key: RowKey): (t: seq<ExpenseRow>)
    ensures forall r :: r in t <==> r in table && !Touches(key, r)
    ensures |t| <= |table|
  {
    if table == [] then []
    else
      assert forall r :: r in table <==> r == table[0] || r in table[1..];
      (if Touches(key, table[0]) then [] else [table[0]]) + DeleteRows(table[1..], key)
  }

  /** A store that performs the update on `table` and answers with the
      whole table afterwards, so that the reply shows what the write reached. */
  function UpdatingStore(table: seq<ExpenseRow>): (RowKey, ExpenseUpdate) -> StoreResult<seq<ExpenseRow>>
  {
    (key: RowKey, rec: ExpenseUpdate) => StoreResult(Some(UpdateRows(table, key, rec)), None)
  }

  /** `updateExpense(id, form)` by a signed-in user rewrites that user's
      expense with this id and no other row: another user's expense with the
      same id, and every other row, are left as they were. */
  lemma UpdateReachesOnlyOwnRow(user: User, id: string, form: ExpenseForm, table: seq<ExpenseRow>)
    ensures var o := UpdateExpense(Some(user), id, form, UpdatingStore(table));
      o.reply.data.Some? && |o.reply.data.value| == |table| &&
      forall i :: 0 <= i < |table| ==>
        o.reply.data.value[i] ==
          if table[i].id == id && table[i].userId == user.id then ApplyUpdate(table[i], UpdateOf(form)) else table[i]
  {
  }

  /** `deleteExpense(id)` by a signed-in user reaches a row exactly when the
      row is that user's expense with this id: a store that succeeds only
      for a key touching `row` reports success exactly then. */
  lemma DeleteReachesOnlyOwnRow(user: User, id: string, row: ExpenseRow)
    ensures var store := (key: RowKey) => if Touches(key, row) then None else Some("not reached");
      DeleteExpense(Some(user), id, store).error.None? <==> row.id == id && row.userId == user.id
  {
  }
}
