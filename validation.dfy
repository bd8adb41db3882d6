/** The zod schemas of the expense, payment and category forms as
    validators: each field's checks run in the order declared, every failing
    check reports its message under the field's name, and an object is valid
    exactly when no field reports anything. */
module Validation {
  import opened Wrappers

  /** One reported problem: the field's name and the message. */
  datatype Issue = Issue(field: string, message: string)

  datatype Parsed<T> = Valid(data: T) | Invalid(issues: seq<Issue>)

  const MaxNameLength: int := 100

  const ExpenseNameRequired: string := "Expense name is required"
  const ExpenseNameTooLong: string := "Name is too long"
  const CategoryRequired: string := "Category is required"
  const AmountNotPositive: string := "Amount must be greater than 0"
  /** zod's own message for `NaN` given to `z.number()`. */
  const AmountNotANumber: string := "Expected number, received nan"
  const DateRequired: string := "Date is required"
  const DateInFuture: string := "Date cannot be in the future"
  const CategoryNameRequired: string := "Category name is required"
  const CategoryNameTooLong: string := "Category name is too long"
  const InvalidUrl: string := "Please enter a valid URL"

  // ---------------------------------------------------------------------
  // Field checks

  /** `.min(1, minMessage).max(100, maxMessage)`: both checks run. */
  function LengthIssues(field: string, s: string, minMessage: string, maxMessage: string): (issues: seq<Issue>)
    ensures minMessage != maxMessage ==> (Issue(field, minMessage) in issues <==> s == "")
    ensures minMessage != maxMessage ==> (Issue(field, maxMessage) in issues <==> |s| > MaxNameLength)
    ensures issues == [] <==> 1 <= |s| <= MaxNameLength
    ensures forall i :: 0 <= i < |issues| ==> issues[i].field == field
  {
    (if |s| < 1 then [Issue(field, minMessage)] else []) +
    (if |s| > MaxNameLength then [Issue(field, maxMessage)] else [])
  }

  /** The result of `z.coerce.number()`'s `Number(input)`. */
  datatype NumberValue = Num(value: real) | NotANumber

  /** `z.coerce.number().positive(...)`: `NaN` fails the type check and
      stops there; a number must be greater than 0. */
  function AmountIssues(field: string, amount: NumberValue): (issues: seq<Issue>)
    ensures issues == [] <==> amount.Num? && amount.value > 0.0
    ensures amount.Num? && amount.value <= 0.0 ==> issues == [Issue(field, AmountNotPositive)]
    ensures amount.NotANumber? ==> issues == [Issue(field, AmountNotANumber)]
  {
    match amount
    case NotANumber => [Issue(field, AmountNotANumber)]
    case Num(v) => if v > 0.0 then [] else [Issue(field, AmountNotPositive)]
  }

  /** The refinement: `new Date(date) <= end of today`. `parseDate` stands
      for `new Date(...)` (absent for an invalid date, which compares false),
      `endOfToday` for today at 23:59:59.999. */
  predicate NotInFuture(date: string, parseDate: string -> Option<int>, endOfToday: int)
  {
    parseDate(date).Some? && parseDate(date).value <= endOfToday
  }

  /** `.min(1, "Date is required").refine(...)`: the refinement runs even
      after a failed length check. */
  function DateIssues(field: string, date: string, parseDate: string -> Option<int>, endOfToday: int): (issues: seq<Issue>)
    ensures Issue(field, DateRequired) in issues <==> date == ""
    ensures Issue(field, DateInFuture) in issues <==> !NotInFuture(date, parseDate, endOfToday)
    ensures issues == [] <==> date != "" && NotInFuture(date, parseDate, endOfToday)
    ensures forall i :: 0 <= i < |issues| ==> issues[i].field == field
  {
    (if |date| < 1 then [Issue(field, DateRequired)] else []) +
    (if NotInFuture(date, parseDate, endOfToday) then [] else [Issue(field, DateInFuture)])
  }

  // ---------------------------------------------------------------------
  // expenseSchema

  /** The form's values as the schema receives them. */
  datatype ExpenseInput = ExpenseInput(name: string, categoryId: string, amount: NumberValue, date: string)

  /** What a successful parse yields, the amount coerced. */
  datatype ExpenseData = ExpenseData(name: string, categoryId: string, amount: real, date: string)

  /** The issues of every field, in the schema's field order. */
  function ExpenseIssues(input: ExpenseInput, parseDate: string -> Option<int>, endOfToday: int): seq<Issue>
  {
    LengthIssues("name", input.name, ExpenseNameRequired, ExpenseNameTooLong) +
    (if |input.categoryId| < 1 then [Issue("category_id", CategoryRequired)] else []) +
    AmountIssues("amount", input.amount) +
    DateIssues("date", input.date, parseDate, endOfToday)
  }

  /** `expenseSchema.safeParse(input)`. */
  function ParseExpense(input: ExpenseInput, parseDate: string -> Option<int>, endOfToday: int): (r: Parsed<ExpenseData>)
    ensures r.Valid? <==>
      1 <= |input.name| <= MaxNameLength && input.categoryId != "" &&
      input.amount.Num? && input.amount.value > 0.0 &&
      input.date != "" && NotInFuture(input.date, parseDate, endOfToday)
    ensures r.Valid? ==> r.data == ExpenseData(input.name, input.categoryId, input.amount.value, input.date)
    ensures r.Invalid? ==> r.issues != []
  {
    var issues := ExpenseIssues(input, parseDate, endOfToday);
    if issues == [] then Valid(ExpenseData(input.name, input.categoryId, input.amount.value, input.date))
    else Invalid(issues)
  }

  /** Each message is reported exactly when its rule is broken. */
  lemma ExpenseMessages(input: ExpenseInput, parseDate: string -> Option<int>, endOfToday: int)
    ensures var issues := ExpenseIssues(input, parseDate, endOfToday);
      (Issue("name", ExpenseNameRequired) in issues <==> input.name == "") &&
      (Issue("name", ExpenseNameTooLong) in issues <==> |input.name| > MaxNameLength) &&
      (Issue("category_id", CategoryRequired) in issues <==> input.categoryId == "") &&
      (Issue("amount", AmountNotPositive) in issues <==> input.amount.Num? && input.amount.value <= 0.0) &&
      (Issue("date", DateRequired) in issues <==> input.date == "") &&
      (Issue("date", DateInFuture) in issues <==> !NotInFuture(input.date, parseDate, endOfToday))
  {
    ExpenseIssuesParts(input, parseDate, endOfToday);
    ExpenseNameMessages(input, parseDate, endOfToday);
    ExpenseOtherMessages(input, parseDate, endOfToday);
    ExpenseDateMessages(input, parseDate, endOfToday);
  }

  /** The issues of an expense, field by field. */
  function NameIssuesOf(input: ExpenseInput): seq<Issue>
  {
    LengthIssues("name", input.name, ExpenseNameRequired, ExpenseNameTooLong)
  }

  function MiddleIssuesOf(input: ExpenseInput): (issues: seq<Issue>)
    ensures forall i :: 0 <= i < |issues| ==> issues[i].field in {"category_id", "amount"}
  {
    (if |input.categoryId| < 1 then [Issue("category_id", CategoryRequired)] else []) +
    AmountIssues("amount", input.amount)
  }

  lemma ExpenseIssuesParts(input: ExpenseInput, parseDate: string -> Option<int>, endOfToday: int)
    ensures ExpenseIssues(input, parseDate, endOfToday) ==
      NameIssuesOf(input) + MiddleIssuesOf(input) + DateIssues("date", input.date, parseDate, endOfToday)
  {
  }

  lemma ExpenseNameMessages(input: ExpenseInput, parseDate: string -> Option<int>, endOfToday: int)
    ensures var issues := NameIssuesOf(input) + MiddleIssuesOf(input) + DateIssues("date", input.date, parseDate, endOfToday);
      (Issue("name", ExpenseNameRequired) in issues <==> input.name == "") &&
      (Issue("name", ExpenseNameTooLong) in issues <==> |input.name| > MaxNameLength)
  {
    var d := DateIssues("date", input.date, parseDate, endOfToday);
    NotInField(d, "date", Issue("name", ExpenseNameRequired));
    NotInField(d, "date", Issue("name", ExpenseNameTooLong));
    assert Issue("name", ExpenseNameRequired) !in MiddleIssuesOf(input);
    assert Issue("name", ExpenseNameTooLong) !in MiddleIssuesOf(input);
  }

  lemma ExpenseOtherMessages(input: ExpenseInput, parseDate: string -> Option<int>, endOfToday: int)
    ensures var issues := NameIssuesOf(input) + MiddleIssuesOf(input) + DateIssues("date", input.date, parseDate, endOfToday);
      (Issue("category_id", CategoryRequired) in issues <==> input.categoryId == "") &&
      (Issue("amount", AmountNotPositive) in issues <==> input.amount.Num? && input.amount.value <= 0.0)
  {
    var a := NameIssuesOf(input);
    var d := DateIssues("date", input.date, parseDate, endOfToday);
    NotInField(a, "name", Issue("category_id", CategoryRequired));
    NotInField(a, "name", Issue("amount", AmountNotPositive));
    NotInField(d, "date", Issue("category_id", CategoryRequired));
    NotInField(d, "date", Issue("amount", AmountNotPositive));
  }

  lemma ExpenseDateMessages(input: ExpenseInput, parseDate: string -> Option<int>, endOfToday: int)
    ensures var issues := NameIssuesOf(input) + MiddleIssuesOf(input) + DateIssues("date", input.date, parseDate, endOfToday);
      (Issue("date", DateRequired) in issues <==> input.date == "") &&
      (Issue("date", DateInFuture) in issues <==> !NotInFuture(input.date, parseDate, endOfToday))
  {
    var a := NameIssuesOf(input);
    NotInField(a, "name", Issue("date", DateRequired));
    NotInField(a, "name", Issue("date", DateInFuture));
  }

  /** An issue of another field is not among one field's issues. */
  lemma NotInField(issues: seq<Issue>, field: string, x: Issue)
    requires forall i :: 0 <= i < |issues| ==> issues[i].field == field
    requires x.field != field
    ensures x !in issues
  {
  }

  /** The boundary lengths: 1 and 100 characters are accepted, 0 and 101
      are not, each with its own message. */
  lemma ExpenseNameBounds(name: string)
    ensures |name| == 1 || |name| == MaxNameLength ==>
      LengthIssues("name", name, ExpenseNameRequired, ExpenseNameTooLong) == []
    ensures |name| == 0 ==>
      LengthIssues("name", name, ExpenseNameRequired, ExpenseNameTooLong) == [Issue("name", ExpenseNameRequired)]
    ensures |name| == MaxNameLength + 1 ==>
      LengthIssues("name", name, ExpenseNameRequired, ExpenseNameTooLong) == [Issue("name", ExpenseNameTooLong)]
  {
  }

  /** An empty date reports both date messages, required first: the
      refinement still runs and `new Date("")` is an invalid date. */
  lemma EmptyDateReportsBoth(parseDate: string -> Option<int>, endOfToday: int)
    requires parseDate("").None?
    ensures DateIssues("date", "", parseDate, endOfToday) == [Issue("date", DateRequired), Issue("date", DateInFuture)]
  {
  }

  // ---------------------------------------------------------------------
  // paymentSchema

  /** `payment_from` is absent for `undefined`. */
  datatype PaymentInput = PaymentInput(amount: NumberValue, date: string, paymentFrom: Option<string>)

  datatype PaymentData = PaymentData(amount: real, date: string, paymentFrom: Option<string>)

  function PaymentIssues(input: PaymentInput, parseDate: string -> Option<int>, endOfToday: int): seq<Issue>
  {
    AmountIssues("amount", input.amount) + DateIssues("date", input.date, parseDate, endOfToday)
  }

  /** `paymentSchema.safeParse(input)`: any `payment_from`, absent, empty or
      not, is accepted as given. */
  function ParsePayment(input: PaymentInput, parseDate: string -> Option<int>, endOfToday: int): (r: Parsed<PaymentData>)
    ensures r.Valid? <==>
      input.amount.Num? && input.amount.value > 0.0 &&
      input.date != "" && NotInFuture(input.date, parseDate, endOfToday)
    ensures r.Valid? ==> r.data == PaymentData(input.amount.value, input.date, input.paymentFrom)
    ensures r.Invalid? ==> r.issues != [] && forall i :: 0 <= i < |r.issues| ==> r.issues[i].field != "payment_from"
  {
    var issues := PaymentIssues(input, parseDate, endOfToday);
    if issues == [] then Valid(PaymentData(input.amount.value, input.date, input.paymentFrom))
    else Invalid(issues)
  }

  /** The payment source never decides validity. */
  lemma PaymentFromIrrelevant(input: PaymentInput, other: Option<string>, parseDate: string -> Option<int>, endOfToday: int)
    ensures ParsePayment(input, parseDate, endOfToday).Valid? ==
            ParsePayment(input.(paymentFrom := other), parseDate, endOfToday).Valid?
  {
  }

  // ---------------------------------------------------------------------
  // categorySchema

  /** `thumbnail_url` is absent for `undefined`. */
  datatype CategoryInput = CategoryInput(name: string, thumbnailUrl: Option<string>)

  /** `z.string().url(...).optional().or(z.literal(""))`: absent, a URL, or
      the empty string; otherwise the URL branch's message. `isUrl` stands
      for zod's URL test. */
  function ThumbnailIssues(thumbnailUrl: Option<string>, isUrl: string -> bool): (issues: seq<Issue>)
    ensures issues == [] <==> thumbnailUrl.None? || thumbnailUrl == Some("") || isUrl(thumbnailUrl.value)
    ensures issues != [] ==> issues == [Issue("thumbnail_url", InvalidUrl)]
  {
    match thumbnailUrl
    case None => []
    case Some(u) => if isUrl(u) || u == "" then [] else [Issue("thumbnail_url", InvalidUrl)]
  }

  function CategoryIssues(input: CategoryInput, isUrl: string -> bool): seq<Issue>
  {
    LengthIssues("name", input.name, CategoryNameRequired, CategoryNameTooLong) + ThumbnailIssues(input.thumbnailUrl, isUrl)
  }

  /** `categorySchema.safeParse(input)`. */
  function ParseCategory(input: CategoryInput, isUrl: string -> bool): (r: Parsed<CategoryInput>)
    ensures r.Valid? <==>
      1 <= |input.name| <= MaxNameLength &&
      (input.thumbnailUrl.None? || input.thumbnailUrl == Some("") || isUrl(input.thumbnailUrl.value))
    ensures r.Valid? ==> r.data == input
  {
    var issues := CategoryIssues(input, isUrl);
    if issues == [] then Valid(input) else Invalid(issues)
  }

  /** The category messages, each exactly when its rule is broken. */
  lemma CategoryMessages(input: CategoryInput, isUrl: string -> bool)
    ensures var issues := CategoryIssues(input, isUrl);
      (Issue("name", CategoryNameRequired) in issues <==> input.name == "") &&
      (Issue("name", CategoryNameTooLong) in issues <==> |input.name| > MaxNameLength) &&
      (Issue("thumbnail_url", InvalidUrl) in issues <==>
         input.thumbnailUrl.Some? && input.thumbnailUrl.value != "" && !isUrl(input.thumbnailUrl.value))
  {
    var a := LengthIssues("name", input.name, CategoryNameRequired, CategoryNameTooLong);
    var b := ThumbnailIssues(input.thumbnailUrl, isUrl);
    NotInField(a, "name", Issue("thumbnail_url", InvalidUrl));
    assert forall i :: 0 <= i < |b| ==> b[i].field == "thumbnail_url";
    NotInField(b, "thumbnail_url", Issue("name", CategoryNameRequired));
    NotInField(b, "thumbnail_url", Issue("name", CategoryNameTooLong));
  }
}
