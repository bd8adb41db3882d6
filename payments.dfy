/** The payment server actions: the paginated list, get by id, create,
    update and delete, each behind the signed-in user gate. */
module Payments {
  import opened Wrappers
  import opened Actions

  const Table: string := "payments"
  const AllColumns: string := "*"
  const ListPath: string := "/payments"

  function EditPath(id: string): string
  {
    "/payments/" + id + "/edit"
  }

  /** The form fields; `paymentFrom` is absent for `undefined` and `null`. */
  datatype PaymentForm = PaymentForm(amount: int, date: string, paymentFrom: Option<string>)

  datatype PaymentInsert = PaymentInsert(amount: int, date: string, paymentFrom: Option<string>, userId: string)
  datatype PaymentUpdate = PaymentUpdate(amount: int, date: string, paymentFrom: Option<string>)

  /** `formData.payment_from || null`: a missing or empty source is stored
      as null, any other is kept. */
  function PaymentFromValue(paymentFrom: Option<string>): (v: Option<string>)
    ensures v.None? <==> paymentFrom.None? || paymentFrom == Some("")
    ensures v.Some? ==> v == paymentFrom
  {
    if paymentFrom.Some? && paymentFrom.value != "" then paymentFrom else None
  }

  /** Storing a stored value again changes nothing, and null is never
      turned into the empty string. */
  lemma PaymentFromStable(paymentFrom: Option<string>)
    ensures PaymentFromValue(PaymentFromValue(paymentFrom)) == PaymentFromValue(paymentFrom)
    ensures PaymentFromValue(paymentFrom) != Some("")
  {
  }

  function InsertOf(form: PaymentForm, user: User): (rec: PaymentInsert)
    ensures rec.userId == user.id
    ensures rec.amount == form.amount && rec.date == form.date && rec.paymentFrom == PaymentFromValue(form.paymentFrom)
  {
    PaymentInsert(form.amount, form.date, PaymentFromValue(form.paymentFrom), user.id)
  }

  function UpdateOf(form: PaymentForm): (rec: PaymentUpdate)
    ensures rec.amount == form.amount && rec.date == form.date && rec.paymentFrom == PaymentFromValue(form.paymentFrom)
  {
    PaymentUpdate(form.amount, form.date, PaymentFromValue(form.paymentFrom))
  }

  /** `getPayments(params)`: unauthorized with count 0 without a user, else
      the page of the user's payments (newest first, within the date range
      when both ends are given) and their exact count. */
  function GetPayments<R>(user: Option<User>, params: Option<ListParams>,
                          countStore: CountQuery -> Option<int>,
                          dataStore: DataQuery -> StoreResult<seq<R>>): (r: ListReply<R>)
    ensures user.None? ==> r.data.None? && r.error == Some(Unauthorized) && r.count == 0
    ensures user.Some? ==>
      var filter := RowFilter(user.value.id, DateFilterOf(params));
      var from := PageOf(params) * PageSizeOf(params);
      var response := dataStore(DataQuery(Table, AllColumns, filter, true, RowRange(from, from + PageSizeOf(params) - 1)));
      r.data == response.data && r.error == response.error &&
      r.count == countStore(CountQuery(Table, filter)).GetOr(0)
  {
    List(Table, AllColumns, user, params, countStore, dataStore)
  }

  /** `getPaymentById(id)`: the one payment with this id owned by the user. */
  function GetPaymentById<R>(user: Option<User>, id: string, store: RowKey -> StoreResult<R>): (r: ItemReply<R>)
    ensures user.None? ==> r == ItemReply(None, Some(Unauthorized))
    ensures user.Some? ==> r == ItemReply(store(RowKey(id, user.value.id)).data, store(RowKey(id, user.value.id)).error)
  {
    match user
    case None => ItemReply(None, Some(Unauthorized))
    case Some(u) =>
      var response := store(RowKey(id, u.id));
      ItemReply(response.data, response.error)
  }

  /** `createPayment(form)`: inserts the form's fields owned by the user,
      revalidating the list page on success. */
  function CreatePayment<R>(user: Option<User>, form: PaymentForm, store: PaymentInsert -> StoreResult<R>): (o: WriteOutcome<R>)
    ensures user.None? ==> o == UnauthorizedWrite()
    ensures user.Some? ==>
      var response := store(InsertOf(form, user.value));
      o.reply == ItemReply(response.data, response.error) &&
      (response.error.None? ==> o.revalidated == [ListPath]) &&
      (response.error.Some? ==> o.revalidated == [])
  {
    match user
    case None => UnauthorizedWrite()
    case Some(u) => AfterWrite(store(InsertOf(form, u)), [ListPath])
  }

  /** `updatePayment(id, form)`: writes the form's fields to the user's
      payment with this id, revalidating the list and its edit page on
      success. */
  function UpdatePayment<R>(user: Option<User>, id: string, form: PaymentForm,
                            store: (RowKey, PaymentUpdate) -> StoreResult<R>): (o: WriteOutcome<R>)
    ensures user.None? ==> o == UnauthorizedWrite()
    ensures user.Some? ==>
      var response := store(RowKey(id, user.value.id), UpdateOf(form));
      o.reply == ItemReply(response.data, response.error) &&
      (response.error.None? ==> o.revalidated == [ListPath, EditPath(id)]) &&
      (response.error.Some? ==> o.revalidated == [])
  {
    match user
    case None => UnauthorizedWrite()
    case Some(u) => AfterWrite(store(RowKey(id, u.id), UpdateOf(form)), [ListPath, EditPath(id)])
  }

  /** `deletePayment(id)`: deletes the user's payment with this id; the
      reply carries only the error, and the list is revalidated on success. */
  function DeletePayment(user: Option<User>, id: string, store: RowKey -> Option<string>): (o: DeleteOutcome)
    ensures user.None? ==> o == DeleteOutcome(Some(Unauthorized), [])
    ensures user.Some? ==> o.error == store(RowKey(id, user.value.id))
    ensures user.Some? ==> (o.revalidated == [ListPath] <==> o.error.None?)
    ensures o.error.Some? ==> o.revalidated == []
  {
    match user
    case None => DeleteOutcome(Some(Unauthorized), [])
    case Some(u) =>
      var error := store(RowKey(id, u.id));
      DeleteOutcome(error, if error.None? then [ListPath] else [])
  }

  // ---------------------------------------------------------------------
  // What the writes do to a stored row

  datatype PaymentRow = PaymentRow(id: string, amount: int, date: string, paymentFrom: Option<string>, userId: string)

  function Stored(id: string, rec: PaymentInsert): PaymentRow
  {
    PaymentRow(id, rec.amount, rec.date, rec.paymentFrom, rec.userId)
  }

  function ApplyUpdate(row: PaymentRow, rec: PaymentUpdate): PaymentRow
  {
    row.(amount := rec.amount, date := rec.date, paymentFrom := rec.paymentFrom)
  }

  /** Updating a payment with a new form leaves it as though it had been
      created from that form by the same owner; in particular an update that
      empties the source clears it to null, as a create would. */
  lemma UpdateKeepsOwner(id: string, user: User, created: PaymentForm, edited: PaymentForm)
    ensures ApplyUpdate(Stored(id, InsertOf(created, user)), UpdateOf(edited)) == Stored(id, InsertOf(edited, user))
    ensures edited.paymentFrom == Some("") ==>
      ApplyUpdate(Stored(id, InsertOf(created, user)), UpdateOf(edited)).paymentFrom.None?
  {
  }
}
