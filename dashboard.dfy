/** The dashboard's server actions: the per-category expense summary with the
    payment total and count (`getDashboardData`), the monthly expense and
    payment buckets of the comparison chart (`getMonthlyComparison`), and
    the `formatDate` helper they share. The store is a parameter: each query
    is a function from its scope to rows or an error message. */
module Dashboard {
  import opened Wrappers
  import opened Seqs
  import opened Text

  /** What a query of the store returns. */
  datatype QueryResult<T> = Rows(rows: T) | QueryError(message: string)

  /** The filters every dashboard query carries: the user and the date range. */
  datatype Scope = Scope(userId: string, from: string, to: string)

  /** A server action's reply: `{ data, error: null }` or `{ data: null, error }`. */
  datatype Reply<T> = Data(data: T) | Failure(error: string)

  const Unauthorized: string := "Unauthorized"

  // ---------------------------------------------------------------------
  // Category summary

  datatype CategoryInfo = CategoryInfo(id: string, name: string, thumbnail: Option<string>)

  /** An expense row with its joined category (absent when it has none). */
  datatype ExpenseRow = ExpenseRow(amount: int, category: Option<CategoryInfo>)

  /** One entry of the category summary. */
  datatype CategoryTotal = CategoryTotal(id: string, name: string, thumbnail: Option<string>, total: int)

  predicate InCategory(e: ExpenseRow, id: string)
  {
    e.category.Some? && e.category.value.id == id
  }

  /** The category ids of the categorised expenses, in order, repeats kept. */
  function CategoryIds(es: seq<ExpenseRow>): seq<string>
  {
    if es == [] then []
    else
      var e := es[|es| - 1];
      CategoryIds(es[..|es| - 1]) + (if e.category.Some? then [e.category.value.id] else [])
  }

  /** The ids are exactly the categories of the expenses. */
  lemma {:induction false} CategoryIdsMembers(es: seq<ExpenseRow>, id: string)
    ensures id in CategoryIds(es) <==> exists i :: 0 <= i < |es| && InCategory(es[i], id)
  {
    if es != [] {
      var init := es[..|es| - 1];
      CategoryIdsMembers(init, id);
      if exists i :: 0 <= i < |init| && InCategory(init[i], id) {
        var i :| 0 <= i < |init| && InCategory(init[i], id);
        assert InCategory(es[i], id);
      }
      if exists i :: 0 <= i < |es| && InCategory(es[i], id) {
        var i :| 0 <= i < |es| && InCategory(es[i], id);
        if i < |init| {
          assert InCategory(init[i], id);
        }
      }
    }
  }

  /** Sum of the amounts of the expenses in a category. */
  function SumFor(es: seq<ExpenseRow>, id: string): int
  {
    if es == [] then 0
    else SumFor(es[..|es| - 1], id) + (if InCategory(es[|es| - 1], id) then es[|es| - 1].amount else 0)
  }

  /** Sum of the amounts of all categorised expenses. */
  function SumCategorised(es: seq<ExpenseRow>): int
  {
    if es == [] then 0
    else SumCategorised(es[..|es| - 1]) + (if es[|es| - 1].category.Some? then es[|es| - 1].amount else 0)
  }

  /** The category as the first expense in it carries it. */
  function FirstInfo(es: seq<ExpenseRow>, id: string): (c: Option<CategoryInfo>)
    ensures c.Some? ==> c.value.id == id
  {
    if es == [] then None
    else if InCategory(es[0], id) then es[0].category
    else FirstInfo(es[1..], id)
  }

  lemma {:induction false} FirstInfoAppend(es: seq<ExpenseRow>, e: ExpenseRow, id: string)
    ensures FirstInfo(es + [e], id) ==
      if FirstInfo(es, id).Some? then FirstInfo(es, id)
      else if InCategory(e, id) then e.category else None
  {
    if es != [] {
      assert (es + [e])[1..] == es[1..] + [e];
      FirstInfoAppend(es[1..], e, id);
    }
  }

  lemma {:induction false} FirstInfoPresent(es: seq<ExpenseRow>, id: string)
    ensures FirstInfo(es, id).Some? <==> id in CategoryIds(es)
  {
    if es != [] {
      var init := es[..|es| - 1];
      var e := es[|es| - 1];
      assert es == init + [e];
      FirstInfoPresent(init, id);
      FirstInfoAppend(init, e, id);
    }
  }

  /** The index of the entry with this id in the summary being built, or -1. */
  function IndexOfId(groups: seq<CategoryTotal>, id: string): (k: int)
    ensures -1 <= k < |groups|
    ensures k >= 0 ==> groups[k].id == id
    ensures k < 0 ==> forall j :: 0 <= j < |groups| ==> groups[j].id != id
  {
    if groups == [] then -1
    else if groups[|groups| - 1].id == id then |groups| - 1
    else IndexOfId(groups[..|groups| - 1], id)
  }

  /** One step of the `forEach`: an uncategorised expense changes nothing, a
      known category adds to its total, a new one is appended. */
  function AddExpense(groups: seq<CategoryTotal>, e: ExpenseRow): seq<CategoryTotal>
  {
    match e.category
    case None => groups
    case Some(c) =>
      var k := IndexOfId(groups, c.id);
      if k >= 0 then groups[k := groups[k].(total := groups[k].total + e.amount)]
      else groups + [CategoryTotal(c.id, c.name, c.thumbnail, e.amount)]
  }

  lemma AddExpenseCases(groups: seq<CategoryTotal>, e: ExpenseRow)
    ensures e.category.None? ==> AddExpense(groups, e) == groups
    ensures e.category.Some? && IndexOfId(groups, e.category.value.id) >= 0 ==>
      var k := IndexOfId(groups, e.category.value.id);
      AddExpense(groups, e) == groups[k := groups[k].(total := groups[k].total + e.amount)]
    ensures e.category.Some? && IndexOfId(groups, e.category.value.id) < 0 ==>
      var c := e.category.value;
      AddExpense(groups, e) == groups + [CategoryTotal(c.id, c.name, c.thumbnail, e.amount)]
  {
  }

  /** The values of `categoryMap` after the `forEach`, in insertion order. */
  function Grouped(es: seq<ExpenseRow>): seq<CategoryTotal>
  {
    if es == [] then [] else AddExpense(Grouped(es[..|es| - 1]), es[|es| - 1])
  }

  /** The grouping loop of `getDashboardData`. */
  method GroupByCategory(expenses: seq<ExpenseRow>) returns (groups: seq<CategoryTotal>)
    ensures groups == Grouped(expenses)
  {
    groups := [];
    var i := 0;
    while i < |expenses|
      invariant 0 <= i <= |expenses|
      invariant groups == Grouped(expenses[..i])
    {
      var e := expenses[i];
      assert expenses[..i + 1][..i] == expenses[..i];
      if e.category.Some? {
        var c := e.category.value;
        var k := IndexOfId(groups, c.id);
        if k >= 0 {
          groups := groups[k := groups[k].(total := groups[k].total + e.amount)];
        } else {
          groups := groups + [CategoryTotal(c.id, c.name, c.thumbnail, e.amount)];
        }
      }
      i := i + 1;
    }
    assert expenses[..i] == expenses;
  }

  /** An entry of the summary describes its category in `es`: the first
      name and thumbnail seen for it and the sum of its amounts. */
  ghost predicate Describes(es: seq<ExpenseRow>, t: CategoryTotal)
  {
    FirstInfo(es, t.id).Some? &&
    t.name == FirstInfo(es, t.id).value.name &&
    t.thumbnail == FirstInfo(es, t.id).value.thumbnail &&
    t.total == SumFor(es, t.id)
  }

  /** `g` lists the categories `ids` in order, each entry describing its
      category in `es`. */
  ghost predicate Lists(es: seq<ExpenseRow>, ids: seq<string>, g: seq<CategoryTotal>)
  {
    |g| == |ids| && forall k :: 0 <= k < |g| ==> g[k].id == ids[k] && Describes(es, g[k])
  }

  /** The summary of `es`: one entry per distinct category id, in first-seen
      order, each describing its category. */
  ghost predicate IsSummaryOf(es: seq<ExpenseRow>, g: seq<CategoryTotal>)
  {
    Lists(es, Dedup(CategoryIds(es)), g)
  }

  lemma {:induction false} SumForAbsent(es: seq<ExpenseRow>, id: string)
    requires id !in CategoryIds(es)
    ensures SumFor(es, id) == 0
  {
    if es != [] {
      var init := es[..|es| - 1];
      assert es == init + [es[|es| - 1]];
      CategoryIdsAppend(init, es[|es| - 1]);
      SumForAbsent(init, id);
    }
  }

  lemma AppendFacts(init: seq<ExpenseRow>, e: ExpenseRow, id: string)
    ensures FirstInfo(init + [e], id) ==
      if FirstInfo(init, id).Some? then FirstInfo(init, id)
      else if InCategory(e, id) then e.category else None
    ensures FirstInfo(init, id).Some? <==> id in CategoryIds(init)
    ensures SumFor(init + [e], id) == SumFor(init, id) + if InCategory(e, id) then e.amount else 0
  {
    FirstInfoAppend(init, e, id);
    FirstInfoPresent(init, id);
    assert (init + [e])[..|init|] == init;
  }

  /** An entry of another category is not affected by `e`. */
  lemma OtherEntryUnchanged(init: seq<ExpenseRow>, e: ExpenseRow, t: CategoryTotal)
    requires Describes(init, t) && !InCategory(e, t.id)
    ensures Describes(init + [e], t)
  {
    AppendFacts(init, e, t.id);
  }

  lemma CategoryIdsAppend(init: seq<ExpenseRow>, e: ExpenseRow)
    ensures CategoryIds(init + [e]) == CategoryIds(init) + if e.category.Some? then [e.category.value.id] else []
  {
    assert (init + [e])[..|init|] == init;
  }

  lemma DedupAppend(s: seq<string>, x: string)
    ensures Dedup(s + [x]) == if x in Dedup(s) then Dedup(s) else Dedup(s) + [x]
  {
    assert (s + [x])[..|s|] == s;
  }

  lemma StepUncategorised(init: seq<ExpenseRow>, e: ExpenseRow, ids: seq<string>, g0: seq<CategoryTotal>)
    requires Lists(init, ids, g0) && e.category.None?
    ensures Lists(init + [e], ids, g0)
  {
    forall k | 0 <= k < |g0|
      ensures Describes(init + [e], g0[k])
    {
      OtherEntryUnchanged(init, e, g0[k]);
    }
  }

  lemma StepKnownCategory(init: seq<ExpenseRow>, e: ExpenseRow, ids: seq<string>, g0: seq<CategoryTotal>, k: int)
    requires Lists(init, ids, g0) && NoDuplicates(ids) && e.category.Some?
    requires 0 <= k < |g0| && g0[k].id == e.category.value.id
    ensures Lists(init + [e], ids, g0[k := g0[k].(total := g0[k].total + e.amount)])
  {
    var c := e.category.value;
    var g := g0[k := g0[k].(total := g0[k].total + e.amount)];
    AppendFacts(init, e, c.id);
    assert Describes(init + [e], g[k]);
    forall j | 0 <= j < |g| && j != k
      ensures Describes(init + [e], g[j])
    {
      assert ids[j] != ids[k];
      OtherEntryUnchanged(init, e, g0[j]);
    }
  }

  lemma StepNewCategory(init: seq<ExpenseRow>, e: ExpenseRow, ids: seq<string>, g0: seq<CategoryTotal>)
    requires Lists(init, ids, g0) && e.category.Some?
    requires e.category.value.id !in CategoryIds(init) && e.category.value.id !in ids
    ensures var c := e.category.value;
      Lists(init + [e], ids + [c.id], g0 + [CategoryTotal(c.id, c.name, c.thumbnail, e.amount)])
  {
    var c := e.category.value;
    var t := CategoryTotal(c.id, c.name, c.thumbnail, e.amount);
    AppendFacts(init, e, c.id);
    SumForAbsent(init, c.id);
    assert Describes(init + [e], t);
    forall j | 0 <= j < |g0|
      ensures Describes(init + [e], g0[j])
    {
      assert ids[j] != c.id;
      OtherEntryUnchanged(init, e, g0[j]);
    }
  }

  lemma GroupedAppend(init: seq<ExpenseRow>, e: ExpenseRow)
    ensures Grouped(init + [e]) == AddExpense(Grouped(init), e)
  {
    assert (init + [e])[..|init|] == init;
  }

  lemma SummaryIdsAppend(init: seq<ExpenseRow>, e: ExpenseRow)
    ensures e.category.None? ==> Dedup(CategoryIds(init + [e])) == Dedup(CategoryIds(init))
    ensures e.category.Some? ==>
      var ids0 := Dedup(CategoryIds(init));
      var id := e.category.value.id;
      Dedup(CategoryIds(init + [e])) == if id in ids0 then ids0 else ids0 + [id]
  {
    CategoryIdsAppend(init, e);
    if e.category.Some? {
      DedupAppend(CategoryIds(init), e.category.value.id);
    } else {
      assert CategoryIds(init + [e]) == CategoryIds(init);
    }
  }

  /** One expense more keeps the summary a summary. */
  lemma GroupedStep(init: seq<ExpenseRow>, e: ExpenseRow)
    requires IsSummaryOf(init, Grouped(init))
    ensures IsSummaryOf(init + [e], Grouped(init + [e]))
  {
    match e.category
    case None => GroupedStepUncategorised(init, e);
    case Some(c) =>
      if IndexOfId(Grouped(init), c.id) >= 0 {
        GroupedStepKnown(init, e, c);
      } else {
        GroupedStepNew(init, e, c);
      }
  }

  lemma GroupedStepUncategorised(init: seq<ExpenseRow>, e: ExpenseRow)
    requires IsSummaryOf(init, Grouped(init)) && e.category.None?
    ensures IsSummaryOf(init + [e], Grouped(init + [e]))
  {
    GroupedAppend(init, e);
    SummaryIdsAppend(init, e);
    AddExpenseCases(Grouped(init), e);
    StepUncategorised(init, e, Dedup(CategoryIds(init)), Grouped(init));
  }

  lemma GroupedStepKnown(init: seq<ExpenseRow>, e: ExpenseRow, c: CategoryInfo)
    requires IsSummaryOf(init, Grouped(init)) && e.category == Some(c)
    requires IndexOfId(Grouped(init), c.id) >= 0
    ensures IsSummaryOf(init + [e], Grouped(init + [e]))
  {
    var k := IndexOfId(Grouped(init), c.id);
    SummaryIds(init, Grouped(init));
    GroupedAppend(init, e);
    AddKnownCategory(Grouped(init), e, c, k);
    KnownCategoryIds(init, e, c, k);
    StepKnownCategory(init, e, Dedup(CategoryIds(init)), Grouped(init), k);
  }

  /** An expense of a listed category adds to that entry ... */
  lemma AddKnownCategory(groups: seq<CategoryTotal>, e: ExpenseRow, c: CategoryInfo, k: int)
    requires e.category == Some(c)
    requires k == IndexOfId(groups, c.id) && k >= 0
    ensures AddExpense(groups, e) == groups[k := groups[k].(total := groups[k].total + e.amount)]
  {
  }

  /** ... and lists no new id. */
  lemma KnownCategoryIds(init: seq<ExpenseRow>, e: ExpenseRow, c: CategoryInfo, k: int)
    requires IdsOf(Grouped(init)) == Dedup(CategoryIds(init)) && e.category == Some(c)
    requires 0 <= k < |Grouped(init)| && Grouped(init)[k].id == c.id
    ensures Dedup(CategoryIds(init + [e])) == Dedup(CategoryIds(init))
  {
    assert Dedup(CategoryIds(init))[k] == c.id;
    SummaryIdsAppend(init, e);
  }

  lemma GroupedStepNew(init: seq<ExpenseRow>, e: ExpenseRow, c: CategoryInfo)
    requires IsSummaryOf(init, Grouped(init)) && e.category == Some(c)
    requires IndexOfId(Grouped(init), c.id) < 0
    ensures IsSummaryOf(init + [e], Grouped(init + [e]))
  {
    SummaryIds(init, Grouped(init));
    NewCategoryShapes(init, e, c);
    StepNewCategory(init, e, Dedup(CategoryIds(init)), Grouped(init));
  }

  /** An expense of an unlisted category appends an entry and its id. */
  lemma NewCategoryShapes(init: seq<ExpenseRow>, e: ExpenseRow, c: CategoryInfo)
    requires IdsOf(Grouped(init)) == Dedup(CategoryIds(init)) && e.category == Some(c)
    requires IndexOfId(Grouped(init), c.id) < 0
    ensures Grouped(init + [e]) == Grouped(init) + [CategoryTotal(c.id, c.name, c.thumbnail, e.amount)]
    ensures c.id !in Dedup(CategoryIds(init)) && c.id !in CategoryIds(init)
    ensures Dedup(CategoryIds(init + [e])) == Dedup(CategoryIds(init)) + [c.id]
  {
    GroupedAppend(init, e);
    AddExpenseCases(Grouped(init), e);
    SummaryIdsAppend(init, e);
    var ids0, g0 := Dedup(CategoryIds(init)), Grouped(init);
    assert forall j :: 0 <= j < |ids0| ==> ids0[j] == g0[j].id;
  }

  /** A summary lists its entries' ids in first-seen order. */
  lemma SummaryIds(es: seq<ExpenseRow>, g: seq<CategoryTotal>)
    requires IsSummaryOf(es, g)
    ensures IdsOf(g) == Dedup(CategoryIds(es))
  {
  }

  /** What the summary holds before sorting: one entry per distinct
      category id, in first-seen order, carrying the name and thumbnail of
      the first expense in that category and the sum of its amounts. */
  lemma {:induction false} GroupedCharacterisation(es: seq<ExpenseRow>)
    ensures IsSummaryOf(es, Grouped(es))
  {
    if es != [] {
      var init := es[..|es| - 1];
      assert es == init + [es[|es| - 1]];
      GroupedCharacterisation(init);
      GroupedStep(init, es[|es| - 1]);
    }
  }

  function IdsOf(g: seq<CategoryTotal>): seq<string>
  {
    seq(|g|, k requires 0 <= k < |g| => g[k].id)
  }

  /** Every category id occurs in the summary exactly once, and exactly the
      categories of some expense occur. */
  lemma GroupedIds(es: seq<ExpenseRow>, id: string)
    ensures NoDuplicates(IdsOf(Grouped(es)))
    ensures id in IdsOf(Grouped(es)) <==> exists i :: 0 <= i < |es| && InCategory(es[i], id)
  {
    GroupedCharacterisation(es);
    SummaryIds(es, Grouped(es));
    CategoryIdsMembers(es, id);
  }

  function SumTotals(g: seq<CategoryTotal>): int
  {
    if g == [] then 0 else SumTotals(g[..|g| - 1]) + g[|g| - 1].total
  }

  lemma {:induction false} SumTotalsUpdate(g: seq<CategoryTotal>, k: int, t: int)
    requires 0 <= k < |g|
    ensures SumTotals(g[k := g[k].(total := t)]) == SumTotals(g) - g[k].total + t
  {
    var h := g[k := g[k].(total := t)];
    if k < |g| - 1 {
      assert h[..|h| - 1] == g[..|g| - 1][k := g[k].(total := t)];
      SumTotalsUpdate(g[..|g| - 1], k, t);
    } else {
      assert h[..|h| - 1] == g[..|g| - 1];
    }
  }

  /** The totals of the summary add up to the sum over all categorised
      expenses: no amount is lost or counted twice. */
  lemma {:induction false} SummaryTotalsAddUp(es: seq<ExpenseRow>)
    ensures SumTotals(Grouped(es)) == SumCategorised(es)
  {
    if es != [] {
      SummaryTotalsAddUp(es[..|es| - 1]);
      SumTotalsStep(Grouped(es[..|es| - 1]), es[|es| - 1]);
    }
  }

  /** One expense adds its amount to the totals when it has a category. */
  lemma SumTotalsStep(g: seq<CategoryTotal>, e: ExpenseRow)
    ensures SumTotals(AddExpense(g, e)) == SumTotals(g) + (if e.category.Some? then e.amount else 0)
  {
    if e.category.Some? {
      var c := e.category.value;
      var k := IndexOfId(g, c.id);
      if k >= 0 {
        SumTotalsUpdate(g, k, g[k].total + e.amount);
      } else {
        assert (g + [CategoryTotal(c.id, c.name, c.thumbnail, e.amount)])[..|g|] == g;
      }
    }
  }

  // ---------------------------------------------------------------------
  // Sorting the summary by total, descending (`b.total - a.total`, a stable
  // sort).

  /** Puts `x` before the first entry whose total is not larger: after the
      larger ones and before the equal ones. */
  function InsertByTotal(x: CategoryTotal, s: seq<CategoryTotal>): (r: seq<CategoryTotal>)
    ensures |r| == |s| + 1
    ensures r[0] == x || (s != [] && r[0] == s[0])
  {
    if s == [] || s[0].total <= x.total then [x] + s
    else [s[0]] + InsertByTotal(x, s[1..])
  }

  lemma {:induction false} InsertIsPermutation(x: CategoryTotal, s: seq<CategoryTotal>)
    ensures multiset(InsertByTotal(x, s)) == multiset(s) + multiset{x}
  {
    if s != [] && s[0].total > x.total {
      assert s == [s[0]] + s[1..];
      InsertIsPermutation(x, s[1..]);
    }
  }

  /** The summary sorted by descending total. */
  function SortByTotal(s: seq<CategoryTotal>): (r: seq<CategoryTotal>)
    ensures |r| == |s|
  {
    if s == [] then [] else InsertByTotal(s[0], SortByTotal(s[1..]))
  }

  /** The sorted summary holds the same entries, each as often. */
  lemma {:induction false} SortIsPermutation(s: seq<CategoryTotal>)
    ensures multiset(SortByTotal(s)) == multiset(s)
  {
    if s != [] {
      assert s == [s[0]] + s[1..];
      SortIsPermutation(s[1..]);
      InsertIsPermutation(s[0], SortByTotal(s[1..]));
    }
  }

  predicate AdjacentNonIncreasing(s: seq<CategoryTotal>)
  {
    forall i :: 0 < i < |s| ==> s[i - 1].total >= s[i].total
  }

  predicate NonIncreasing(s: seq<CategoryTotal>)
  {
    forall i, j :: 0 <= i < j < |s| ==> s[i].total >= s[j].total
  }

  lemma {:induction false} AdjacentIsEnough(s: seq<CategoryTotal>)
    requires AdjacentNonIncreasing(s)
    ensures NonIncreasing(s)
  {
    if |s| > 1 {
      var t := s[1..];
      AdjacentIsEnough(t);
      forall j | 1 <= j < |s|
        ensures s[0].total >= s[j].total
      {
        if j > 1 {
          assert t[0].total >= t[j - 1].total;
        }
      }
    }
  }

  lemma {:induction false} InsertKeepsOrder(x: CategoryTotal, s: seq<CategoryTotal>)
    requires AdjacentNonIncreasing(s)
    ensures AdjacentNonIncreasing(InsertByTotal(x, s))
  {
    if s != [] && s[0].total > x.total {
      InsertKeepsOrder(x, s[1..]);
    }
  }

  /** The sorted summary is ordered by non-increasing total. */
  lemma {:induction false} SortedByTotal(s: seq<CategoryTotal>)
    ensures NonIncreasing(SortByTotal(s))
  {
    SortedAdjacent(s);
    AdjacentIsEnough(SortByTotal(s));
  }

  lemma {:induction false} SortedAdjacent(s: seq<CategoryTotal>)
    ensures AdjacentNonIncreasing(SortByTotal(s))
  {
    if s != [] {
      SortedAdjacent(s[1..]);
      InsertKeepsOrder(s[0], SortByTotal(s[1..]));
    }
  }

  /** The entries with a given total, in order. */
  function WithTotal(s: seq<CategoryTotal>, t: int): seq<CategoryTotal>
  {
    if s == [] then [] else Head(s[0], t) + WithTotal(s[1..], t)
  }

  /** `[y]` when y has total t, else nothing. */
  function Head(y: CategoryTotal, t: int): seq<CategoryTotal>
  {
    if y.total == t then [y] else []
  }

  lemma {:induction false} InsertWithTotal(x: CategoryTotal, s: seq<CategoryTotal>, t: int)
    ensures WithTotal(InsertByTotal(x, s), t) == Head(x, t) + WithTotal(s, t)
  {
    if s == [] || s[0].total <= x.total {
      WithTotalCons(x, s, t);
    } else {
      InsertWithTotal(x, s[1..], t);
      InsertWithTotalStep(x, s, t);
    }
  }

  /** Inserting past a larger entry commutes with picking out a total. */
  lemma InsertWithTotalStep(x: CategoryTotal, s: seq<CategoryTotal>, t: int)
    requires s != [] && s[0].total > x.total
    requires WithTotal(InsertByTotal(x, s[1..]), t) == Head(x, t) + WithTotal(s[1..], t)
    ensures WithTotal(InsertByTotal(x, s), t) == Head(x, t) + WithTotal(s, t)
  {
    assert InsertByTotal(x, s) == [s[0]] + InsertByTotal(x, s[1..]);
    WithTotalCons(s[0], InsertByTotal(x, s[1..]), t);
    assert s == [s[0]] + s[1..];
    WithTotalCons(s[0], s[1..], t);
    SwapHeads(Head(s[0], t), Head(x, t), WithTotal(s[1..], t));
  }

  lemma SwapHeads<T>(a: seq<T>, b: seq<T>, w: seq<T>)
    requires a == [] || b == []
    ensures a + (b + w) == b + (a + w)
  {
  }

  lemma WithTotalCons(y: CategoryTotal, r: seq<CategoryTotal>, t: int)
    ensures WithTotal([y] + r, t) == Head(y, t) + WithTotal(r, t)
  {
    assert ([y] + r)[1..] == r;
  }

  /** The sort is stable: entries with equal totals keep their first-seen
      order. */
  lemma {:induction false} SortIsStable(s: seq<CategoryTotal>, t: int)
    ensures WithTotal(SortByTotal(s), t) == WithTotal(s, t)
  {
    if s != [] {
      SortIsStable(s[1..], t);
      InsertWithTotal(s[0], SortByTotal(s[1..]), t);
    }
  }

  // ---------------------------------------------------------------------
  // getDashboardData

  function Sum(amounts: seq<int>): int
  {
    if amounts == [] then 0 else Sum(amounts[..|amounts| - 1]) + amounts[|amounts| - 1]
  }

  /** The sum is order-independent in the sense the dashboard needs: adding
      one more payment adds its amount. */
  lemma SumAppend(amounts: seq<int>, a: int)
    ensures Sum(amounts + [a]) == Sum(amounts) + a
  {
    assert (amounts + [a])[..|amounts|] == amounts;
  }

  datatype Summary = Summary(categorySummary: seq<CategoryTotal>, totalPayments: int, paymentsCount: nat)

  /** `getDashboardData(dateRange)`: refuses without a user, reports the
      first query error, and otherwise returns the sorted category summary
      with the payment total and count. */
  method GetDashboardData(user: Option<string>, from: string, to: string,
                          fetchExpenses: Scope -> QueryResult<seq<ExpenseRow>>,
                          fetchPayments: Scope -> QueryResult<seq<int>>)
    returns (reply: Reply<Summary>)
    ensures user.None? ==> reply == Failure(Unauthorized)
    ensures user.Some? ==>
      var scope := Scope(user.value, from, to);
      match fetchExpenses(scope)
      case QueryError(m) => reply == Failure(m)
      case Rows(es) =>
        match fetchPayments(scope)
        case QueryError(m) => reply == Failure(m)
        case Rows(ps) => reply == Data(Summary(SortByTotal(Grouped(es)), Sum(ps), |ps|))
  {
    if user.None? {
      return Failure(Unauthorized);
    }
    var scope := Scope(user.value, from, to);
    var expenses := fetchExpenses(scope);
    if expenses.QueryError? {
      return Failure(expenses.message);
    }
    var payments := fetchPayments(scope);
    if payments.QueryError? {
      return Failure(payments.message);
    }
    var groups := GroupByCategory(expenses.rows);
    reply := Data(Summary(SortByTotal(groups), Sum(payments.rows), |payments.rows|));
  }

  // ---------------------------------------------------------------------
  // formatDate

  /** The local calendar fields of a `Date`: full year, 0-based month, day. */
  datatype LocalDate = LocalDate(year: int, monthIndex: int, day: int)

  predicate ValidDate(d: LocalDate)
  {
    0 <= d.monthIndex <= 11 && 1 <= d.day <= 31
  }

  const MonthNames: seq<string> := ["January", "February", "March", "April", "May", "June",
                                    "July", "August", "September", "October", "November", "December"]

  /** `formatDate(date, formatStr)`: the three patterns the dashboard uses,
      and `iso` (the date's `toISOString()`) for any other. */
  function FormatDate(d: LocalDate, formatStr: string, iso: string): (s: string)
    requires ValidDate(d)
    ensures formatStr == "MMMM" ==> s == MonthNames[d.monthIndex]
    ensures formatStr !in {"yyyy-MM-dd", "yyyy-MM", "MMMM"} ==> s == iso
  {
    if formatStr == "yyyy-MM-dd" then DateText(d.year, d.monthIndex + 1, d.day)
    else if formatStr == "yyyy-MM" then IntToString(d.year) + "-" + Pad2(d.monthIndex + 1)
    else if formatStr == "MMMM" then MonthNames[d.monthIndex]
    else iso
  }

  /** For a four-digit year "yyyy-MM-dd" gives ten characters: the year, the
      1-based month and the day, each readable back, separated by dashes;
      and "yyyy-MM" is its first seven characters. */
  lemma FormatDateFields(d: LocalDate, iso: string)
    requires ValidDate(d) && 1000 <= d.year <= 9999
    ensures var s := FormatDate(d, "yyyy-MM-dd", iso);
      |s| == 10 && s[4] == '-' && s[7] == '-' &&
      AllDigits(s[..4]) && AllDigits(s[5..7]) && AllDigits(s[8..]) &&
      DigitsValue(s[..4]) == d.year && DigitsValue(s[5..7]) == d.monthIndex + 1 &&
      DigitsValue(s[8..]) == d.day
    ensures FormatDate(d, "yyyy-MM", iso) == FormatDate(d, "yyyy-MM-dd", iso)[..7]
  {
    DateTextFields(d.year, d.monthIndex + 1, d.day);
    var s := FormatDate(d, "yyyy-MM-dd", iso);
    assert s[..7] == IntToString(d.year) + "-" + Pad2(d.monthIndex + 1) by {
      NatToStringLength(d.year);
    }
  }

  // ---------------------------------------------------------------------
  // getMonthlyComparison

  datatype DatedAmount = DatedAmount(amount: int, date: string)

  /** One entry of `monthlyData`. */
  datatype Bucket = Bucket(key: string, expenses: int, payments: int)

  /** `date.substring(0, 7)`. */
  function MonthKeyOf(date: string): (key: string)
    ensures |date| >= 7 ==> key == date[..7]
    ensures |date| < 7 ==> key == date
  {
    if |date| >= 7 then date[..7] else date
  }

  /** The month key of a date formatted "yyyy-MM-dd" is the date formatted
      "yyyy-MM": a record dated by formatDate lands in its month's bucket. */
  lemma MonthKeyOfFormattedDate(d: LocalDate, iso: string)
    requires ValidDate(d) && 1000 <= d.year <= 9999
    ensures MonthKeyOf(FormatDate(d, "yyyy-MM-dd", iso)) == FormatDate(d, "yyyy-MM", iso)
  {
    FormatDateFields(d, iso);
  }

  /** Sum of the amounts of the records in a month. */
  function SumInMonth(rs: seq<DatedAmount>, key: string): int
  {
    if rs == [] then 0
    else SumInMonth(rs[..|rs| - 1], key) + (if MonthKeyOf(rs[|rs| - 1].date) == key then rs[|rs| - 1].amount else 0)
  }

  function KeysOf(buckets: seq<Bucket>): seq<string>
  {
    seq(|buckets|, k requires 0 <= k < |buckets| => buckets[k].key)
  }

  function IndexOfKey(buckets: seq<Bucket>, key: string): (k: int)
    ensures -1 <= k < |buckets|
    ensures k >= 0 ==> buckets[k].key == key
    ensures k < 0 ==> forall j :: 0 <= j < |buckets| ==> buckets[j].key != key
  {
    if buckets == [] then -1
    else if buckets[|buckets| - 1].key == key then |buckets| - 1
    else IndexOfKey(buckets[..|buckets| - 1], key)
  }

  /** The seeding loop: `monthlyData[monthKey] = { expenses: 0, payments: 0 }`
      for each key; a repeated key keeps its first position. */
  method SeedBuckets(keys: seq<string>) returns (buckets: seq<Bucket>)
    ensures KeysOf(buckets) == Dedup(keys)
    ensures forall k :: 0 <= k < |buckets| ==> buckets[k].expenses == 0 && buckets[k].payments == 0
  {
    buckets := [];
    var i := 0;
    while i < |keys|
      invariant 0 <= i <= |keys|
      invariant KeysOf(buckets) == Dedup(keys[..i])
      invariant forall k :: 0 <= k < |buckets| ==> buckets[k].expenses == 0 && buckets[k].payments == 0
    {
      ghost var before := buckets;
      var j := IndexOfKey(buckets, keys[i]);
      if j >= 0 {
        buckets := buckets[j := Bucket(keys[i], 0, 0)];
      } else {
        buckets := buckets + [Bucket(keys[i], 0, 0)];
      }
      SeedStep(keys, i, before, j, buckets);
      i := i + 1;
    }
    assert keys[..i] == keys;
  }

  /** Seeding one more key overwrites its bucket if it is already there
      and appends one otherwise. */
  lemma SeedStep(keys: seq<string>, i: nat, before: seq<Bucket>, j: int, after: seq<Bucket>)
    requires i < |keys|
    requires KeysOf(before) == Dedup(keys[..i])
    requires j == IndexOfKey(before, keys[i])
    requires j >= 0 ==> after == before[j := Bucket(keys[i], 0, 0)]
    requires j < 0 ==> after == before + [Bucket(keys[i], 0, 0)]
    ensures KeysOf(after) == Dedup(keys[..i + 1])
  {
    assert keys[..i + 1][..i] == keys[..i];
    if j >= 0 {
      assert KeysOf(before)[j] == keys[i];
      assert KeysOf(after) == KeysOf(before);
    } else {
      assert forall k :: 0 <= k < |before| ==> KeysOf(before)[k] != keys[i];
      assert KeysOf(after) == KeysOf(before) + [keys[i]];
    }
  }

  /** The buckets after every record of `rs` has been credited to its
      month: the payments (`toPayments`) or the expenses of each bucket grow
      by the sum of the records in its month. */
  function Credited(buckets0: seq<Bucket>, rs: seq<DatedAmount>, toPayments: bool): (r: seq<Bucket>)
    ensures |r| == |buckets0|
  {
    seq(|buckets0|, k requires 0 <= k < |buckets0| =>
      if toPayments then buckets0[k].(payments := buckets0[k].payments + SumInMonth(rs, buckets0[k].key))
      else buckets0[k].(expenses := buckets0[k].expenses + SumInMonth(rs, buckets0[k].key)))
  }

  /** Crediting one more record changes only the bucket of its month, if
      there is one. */
  lemma CreditStep(buckets0: seq<Bucket>, rs: seq<DatedAmount>, i: nat, toPayments: bool,
                   before: seq<Bucket>, j: int, after: seq<Bucket>)
    requires NoDuplicates(KeysOf(buckets0))
    requires i < |rs|
    requires before == Credited(buckets0, rs[..i], toPayments)
    requires j == IndexOfKey(before, MonthKeyOf(rs[i].date))
    requires j < 0 ==> after == before
    requires j >= 0 && toPayments ==> after == before[j := before[j].(payments := before[j].payments + rs[i].amount)]
    requires j >= 0 && !toPayments ==> after == before[j := before[j].(expenses := before[j].expenses + rs[i].amount)]
    ensures after == Credited(buckets0, rs[..i + 1], toPayments)
  {
    assert rs[..i + 1][..i] == rs[..i];
    var key := MonthKeyOf(rs[i].date);
    var now := Credited(buckets0, rs[..i + 1], toPayments);
    forall k | 0 <= k < |buckets0|
      ensures after[k] == now[k]
    {
      var b := buckets0[k];
      assert before[k] == Credited(buckets0, rs[..i], toPayments)[k];
      assert now[k] == Credited(buckets0, rs[..i + 1], toPayments)[k];
      var gain := if key == b.key then rs[i].amount else 0;
      assert SumInMonth(rs[..i + 1], b.key) == SumInMonth(rs[..i], b.key) + gain;
      if k != j && j >= 0 {
        assert KeysOf(buckets0)[k] == b.key;
        assert KeysOf(buckets0)[j] == buckets0[j].key;
      }
    }
  }

  /** Crediting keeps every bucket's key in place. */
  lemma CreditedKeys(buckets0: seq<Bucket>, rs: seq<DatedAmount>, toPayments: bool)
    ensures KeysOf(Credited(buckets0, rs, toPayments)) == KeysOf(buckets0)
  {
  }

  /** The `forEach` over expenses (`toPayments` false) or payments (true):
      each record adds its amount to the bucket of its month key, if seeded. */
  method Accumulate(buckets0: seq<Bucket>, rs: seq<DatedAmount>, toPayments: bool) returns (buckets: seq<Bucket>)
    requires NoDuplicates(KeysOf(buckets0))
    ensures buckets == Credited(buckets0, rs, toPayments)
  {
    buckets := buckets0;
    assert buckets0 == Credited(buckets0, rs[..0], toPayments);
    var i := 0;
    while i < |rs|
      invariant 0 <= i <= |rs|
      invariant buckets == Credited(buckets0, rs[..i], toPayments)
    {
      ghost var before := buckets;
      var key := MonthKeyOf(rs[i].date);
      var j := IndexOfKey(buckets, key);
      if j >= 0 {
        var b := buckets[j];
        var amount := rs[i].amount;
        buckets := buckets[j := if toPayments then b.(payments := b.payments + amount)
                                else b.(expenses := b.expenses + amount)];
      }
      CreditStep(buckets0, rs, i, toPayments, before, j, buckets);
      i := i + 1;
    }
    assert rs[..i] == rs;
  }

  /** `monthlyData` after seeding and both loops: one bucket per distinct
      seeded key in insertion order, each holding the sums of the expenses
      and of the payments in that month; records of other months are
      dropped. */
  method MonthlyBuckets(keys: seq<string>, expenses: seq<DatedAmount>, payments: seq<DatedAmount>)
    returns (buckets: seq<Bucket>)
    ensures KeysOf(buckets) == Dedup(keys)
    ensures forall k :: 0 <= k < |buckets| ==>
      buckets[k].expenses == SumInMonth(expenses, buckets[k].key) &&
      buckets[k].payments == SumInMonth(payments, buckets[k].key)
  {
    var seeded := SeedBuckets(keys);
    var withExpenses := Accumulate(seeded, expenses, false);
    CreditedKeys(seeded, expenses, false);
    buckets := Accumulate(withExpenses, payments, true);
    CreditedKeys(withExpenses, payments, true);
    forall k | 0 <= k < |buckets|
      ensures buckets[k].key == withExpenses[k].key == seeded[k].key
    {
      assert KeysOf(buckets)[k] == buckets[k].key;
      assert KeysOf(withExpenses)[k] == withExpenses[k].key;
      assert KeysOf(seeded)[k] == seeded[k].key;
    }
  }

  /** A record whose month was not seeded adds to no bucket. */
  lemma UnseededMonthIgnored(rs: seq<DatedAmount>, r: DatedAmount, key: string)
    requires MonthKeyOf(r.date) != key
    ensures SumInMonth(rs + [r], key) == SumInMonth(rs, key)
  {
    assert (rs + [r])[..|rs|] == rs;
  }

  /** Reads a "yyyy-MM" key back as a year and a 1-based month, the way
      `new Date(monthKey + "-01")` accepts it; anything else is an invalid
      date. */
  function ParseMonthKey(key: string): (ym: Option<(int, int)>)
    ensures ym.Some? ==> 1 <= ym.value.1 <= 12
  {
    if |key| == 7 && AllDigits(key[..4]) && key[4] == '-' && AllDigits(key[5..]) &&
       1 <= DigitsValue(key[5..]) <= 12
    then Some((DigitsValue(key[..4]), DigitsValue(key[5..])))
    else None
  }

  /** The chart's month name for a bucket key: the key's own month, or
      undefined for a key that is not a date. */
  function MonthLabel(key: string): (name: Option<string>)
    ensures name.Some? <==> ParseMonthKey(key).Some?
    ensures name.Some? ==> name.value == MonthNames[ParseMonthKey(key).value.1 - 1]
  {
    match ParseMonthKey(key)
    case None => None
    case Some((_, m)) => Some(MonthNames[m - 1])
  }

  /** The label as the code computes it: `new Date("yyyy-MM-01")` is
      midnight UTC of the 1st, but `getMonth()` reads the local calendar,
      which west of UTC (a negative offset) is still the last day of the
      previous month. */
  function MonthLabelAsWritten(key: string, utcOffsetMinutes: int): (name: Option<string>)
    requires -24 * 60 < utcOffsetMinutes < 24 * 60
    ensures name.Some? <==> ParseMonthKey(key).Some?
  {
    match ParseMonthKey(key)
    case None => None
    case Some((_, m)) =>
      var localMonthIndex := if utcOffsetMinutes < 0 then (m + 10) % 12 else m - 1;
      Some(MonthNames[localMonthIndex])
  }

  /** Formatting a month as "yyyy-MM" and labelling it gives that month's
      name, the same as formatDate's "MMMM". */
  lemma MonthLabelOfFormattedKey(d: LocalDate, iso: string)
    requires ValidDate(d) && 1000 <= d.year <= 9999
    ensures ParseMonthKey(FormatDate(d, "yyyy-MM", iso)) == Some((d.year, d.monthIndex + 1))
    ensures MonthLabel(FormatDate(d, "yyyy-MM", iso)) == Some(FormatDate(d, "MMMM", iso))
  {
    FormatDateFields(d, iso);
    var full := FormatDate(d, "yyyy-MM-dd", iso);
    var key := FormatDate(d, "yyyy-MM", iso);
    assert key[..4] == full[..4] && key[5..] == full[5..7];
  }

  /** West of UTC the label as written names the month before the key's
      month, for every valid key; at or east of UTC it is right. */
  lemma MonthLabelAsWrittenIsOffByOne(key: string, utcOffsetMinutes: int)
    requires -24 * 60 < utcOffsetMinutes < 24 * 60
    requires ParseMonthKey(key).Some?
    ensures utcOffsetMinutes < 0 ==> MonthLabelAsWritten(key, utcOffsetMinutes) != MonthLabel(key)
    ensures utcOffsetMinutes >= 0 ==> MonthLabelAsWritten(key, utcOffsetMinutes) == MonthLabel(key)
  {
    var m := ParseMonthKey(key).value.1;
    assert forall i, j :: 0 <= i < 12 && 0 <= j < 12 && i != j ==> MonthNames[i] != MonthNames[j];
    assert (m + 10) % 12 != m - 1;
  }

  /** The concrete case: at UTC-5 the March bucket is labelled February. */
  lemma MonthLabelAsWrittenExample()
    ensures MonthLabelAsWritten("2024-03", -300) == Some("February")
    ensures MonthLabel("2024-03") == Some("March")
  {
    assert "2024-03"[..4] == "2024" && "2024-03"[5..] == "03";
    assert DigitsValue("03") == 3 by {
      assert "03"[..1] == "0";
      assert "0"[..0] == [];
    }
  }

  /** One point of the chart (amounts are integers here, so `Math.round`
      leaves them as they are). */
  datatype ChartPoint = ChartPoint(month: Option<string>, expenses: int, payments: int)

  /** The chart's points, each bucket labelled with the corrected
      `MonthLabel`. */
  function ChartData(buckets: seq<Bucket>): (points: seq<ChartPoint>)
    ensures |points| == |buckets|
    ensures forall k :: 0 <= k < |points| ==>
      points[k] == ChartPoint(MonthLabel(buckets[k].key), buckets[k].expenses, buckets[k].payments)
  {
    seq(|buckets|, k requires 0 <= k < |buckets| =>
      ChartPoint(MonthLabel(buckets[k].key), buckets[k].expenses, buckets[k].payments))
  }

  /** The chart's points as the code labels them, on a server at the given
      UTC offset. */
  function ChartDataAsWritten(buckets: seq<Bucket>, utcOffsetMinutes: int): (points: seq<ChartPoint>)
    requires -24 * 60 < utcOffsetMinutes < 24 * 60
    ensures |points| == |buckets|
    ensures forall k :: 0 <= k < |points| ==>
      points[k] == ChartPoint(MonthLabelAsWritten(buckets[k].key, utcOffsetMinutes), buckets[k].expenses, buckets[k].payments)
  {
    seq(|buckets|, k requires 0 <= k < |buckets| =>
      ChartPoint(MonthLabelAsWritten(buckets[k].key, utcOffsetMinutes), buckets[k].expenses, buckets[k].payments))
  }

  /** The chart as written is the corrected chart at or east of UTC; west of
      UTC it differs as soon as one bucket has a well-formed month key. */
  lemma ChartDataAsWrittenAgreement(buckets: seq<Bucket>, utcOffsetMinutes: int)
    requires -24 * 60 < utcOffsetMinutes < 24 * 60
    ensures utcOffsetMinutes >= 0 ==> ChartDataAsWritten(buckets, utcOffsetMinutes) == ChartData(buckets)
    ensures utcOffsetMinutes < 0 && (exists k :: 0 <= k < |buckets| && ParseMonthKey(buckets[k].key).Some?) ==>
      ChartDataAsWritten(buckets, utcOffsetMinutes) != ChartData(buckets)
  {
    var written := ChartDataAsWritten(buckets, utcOffsetMinutes);
    var corrected := ChartData(buckets);
    if utcOffsetMinutes >= 0 {
      forall k | 0 <= k < |buckets|
        ensures written[k] == corrected[k]
      {
        if ParseMonthKey(buckets[k].key).Some? {
          MonthLabelAsWrittenIsOffByOne(buckets[k].key, utcOffsetMinutes);
        }
      }
    } else if k :| 0 <= k < |buckets| && ParseMonthKey(buckets[k].key).Some? {
      MonthLabelAsWrittenIsOffByOne(buckets[k].key, utcOffsetMinutes);
      assert written[k].month != corrected[k].month;
    }
  }

  /** `getMonthlyComparison()`, with the seeded month keys and the
      "yyyy-MM-dd" bounds of the six-month window taken as inputs. */
  method GetMonthlyComparison(user: Option<string>, seedKeys: seq<string>, fromDate: string, toDate: string,
                              fetchExpenses: Scope -> QueryResult<seq<DatedAmount>>,
                              fetchPayments: Scope -> QueryResult<seq<DatedAmount>>)
    returns (reply: Reply<seq<ChartPoint>>)
    ensures user.None? ==> reply == Failure(Unauthorized)
    ensures user.Some? && fetchExpenses(Scope(user.value, fromDate, toDate)).QueryError? ==>
      reply == Failure(fetchExpenses(Scope(user.value, fromDate, toDate)).message)
    ensures user.Some? && fetchExpenses(Scope(user.value, fromDate, toDate)).Rows? &&
            fetchPayments(Scope(user.value, fromDate, toDate)).QueryError? ==>
      reply == Failure(fetchPayments(Scope(user.value, fromDate, toDate)).message)
    ensures (user.Some? && fetchExpenses(Scope(user.value, fromDate, toDate)).Rows? &&
             fetchPayments(Scope(user.value, fromDate, toDate)).Rows?) ==> reply.Data?
    ensures reply.Data? ==>
      var scope := Scope(user.value, fromDate, toDate);
      var es := fetchExpenses(scope).rows;
      var ps := fetchPayments(scope).rows;
      var keys := Dedup(seedKeys);
      user.Some? && fetchExpenses(scope).Rows? && fetchPayments(scope).Rows? &&
      |reply.data| == |keys| &&
      forall k :: 0 <= k < |keys| ==>
        reply.data[k] == ChartPoint(MonthLabel(keys[k]), SumInMonth(es, keys[k]), SumInMonth(ps, keys[k]))
  {
    if user.None? {
      return Failure(Unauthorized);
    }
    var scope := Scope(user.value, fromDate, toDate);
    var expenses := fetchExpenses(scope);
    if expenses.QueryError? {
      return Failure(expenses.message);
    }
    var payments := fetchPayments(scope);
    if payments.QueryError? {
      return Failure(payments.message);
    }
    var buckets := MonthlyBuckets(seedKeys, expenses.rows, payments.rows);
    assert forall k :: 0 <= k < |buckets| ==> buckets[k].key == Dedup(seedKeys)[k] by {
      assert forall k :: 0 <= k < |buckets| ==> KeysOf(buckets)[k] == buckets[k].key;
    }
    reply := Data(ChartData(buckets));
  }
}
