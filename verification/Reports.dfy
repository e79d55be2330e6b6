/** The read-only views of the "Balance" and "Reporte Detallado" pages: the
    month list, the month-filtered totals, the per-category analysis, the
    per-subcategory spend, the grouped summaries with their shares and the
    alert rules. Each is a function of a snapshot of the records and of the
    budget map. */
module Reports {
  import opened Text
  import opened Records
  import Taxonomy
  import Store

  /** A view that the page may leave out. */
  datatype Option<T> = None | Some(value: T)

  // ---------------------------------------------------------------------
  // Months and month filters

  /** `sorted(set(meses))` over the months of every income and every
      expense: the choices of the month selectors. */
  function AvailableMonths(incomes: seq<Record>, expenses: seq<Record>): (ms: seq<string>)
    ensures StrictlySorted(ms)
    ensures forall m :: m in ms <==> Where(incomes, ByMonth, m) != [] || Where(expenses, ByMonth, m) != []
  {
    SortedDistinct(Values(incomes, ByMonth) + Values(expenses, ByMonth))
  }

  /** No other list can be the month list: it is the one strictly increasing
      list of exactly the months that occur. */
  lemma AvailableMonthsUnique(incomes: seq<Record>, expenses: seq<Record>, ms: seq<string>)
    requires StrictlySorted(ms)
    requires forall m :: m in ms <==> Where(incomes, ByMonth, m) != [] || Where(expenses, ByMonth, m) != []
    ensures ms == AvailableMonths(incomes, expenses)
  {
    SortedListsWithSameElements(ms, AvailableMonths(incomes, expenses));
  }

  /** Every record's month is one of the choices. */
  lemma RecordMonthIsAvailable(incomes: seq<Record>, expenses: seq<Record>, x: Record)
    requires x in incomes || x in expenses
    ensures MonthOf(x.date) in AvailableMonths(incomes, expenses)
  {
    var m := MonthOf(x.date);
    if x in incomes { assert x in Where(incomes, ByMonth, m); }
    else { assert x in Where(expenses, ByMonth, m); }
  }

  /** After the month `m` has been deleted from both lists, the month list
      is the old one without `m`. */
  lemma AvailableMonthsAfterDelete(incomes: seq<Record>, expenses: seq<Record>, m: string)
    ensures forall w :: w in AvailableMonths(Without(incomes, ByMonth, m), Without(expenses, ByMonth, m))
                        <==> w in AvailableMonths(incomes, expenses) && w != m
  {
    forall w
      ensures w in AvailableMonths(Without(incomes, ByMonth, m), Without(expenses, ByMonth, m))
              <==> w in AvailableMonths(incomes, expenses) && w != m
    {
      WhereAfterWithout(incomes, ByMonth, m, w);
      WhereAfterWithout(expenses, ByMonth, m, w);
    }
  }

  /** "Todos los meses" or one month of the detailed report's selector. */
  datatype MonthFilter = AllMonths | Month(key: string)

  /** The records the filter keeps, in their order. */
  function Selected(s: seq<Record>, filter: MonthFilter): (r: seq<Record>)
    ensures |r| <= |s|
    ensures forall x | x in r :: x in s
    ensures forall x | x in s :: x in r <==> filter.AllMonths? || MonthOf(x.date) == filter.key
    ensures filter.AllMonths? ==> r == s
    ensures filter.Month? ==> multiset(r) + multiset(Without(s, ByMonth, filter.key)) == multiset(s)
  {
    match filter
    case AllMonths => s
    case Month(m) => WhereAndWithoutPartition(s, ByMonth, m); Where(s, ByMonth, m)
  }

  /** `presupuesto_mes`: the budget of the selected month, or nothing at all
      when every month is shown. */
  function BudgetFor(budgets: map<string, map<string, real>>, filter: MonthFilter): (mb: map<string, real>)
    ensures filter.AllMonths? ==> mb == map[]
    ensures filter.Month? && filter.key in budgets ==> mb == budgets[filter.key]
    ensures filter.Month? && filter.key !in budgets ==> mb == map[]
  {
    match filter
    case AllMonths => map[]
    case Month(m) => if m in budgets then budgets[m] else map[]
  }

  /** `d.get(c, 0.0)`. */
  function BudgetOf(mb: map<string, real>, cat: string): real {
    if cat in mb then mb[cat] else 0.0
  }

  // ---------------------------------------------------------------------
  // Totals

  datatype Totals = Totals(income: real, expense: real, balance: real)

  /** `total_ingresos`, `total_gastos` and `balance` of the selected
      records; an empty selection totals 0. */
  function Summarize(incomes: seq<Record>, expenses: seq<Record>, filter: MonthFilter): (t: Totals)
    ensures t.balance == t.income - t.expense
    ensures Selected(incomes, filter) == [] ==> t.income == 0.0
    ensures Selected(expenses, filter) == [] ==> t.expense == 0.0
  {
    var income := Sum(Selected(incomes, filter));
    var expense := Sum(Selected(expenses, filter));
    Totals(income, expense, income - expense)
  }

  /** "Todos los meses" covers every record: its totals are the sums over
      the month list of the per-month totals. */
  lemma AllMonthsIsSumOfMonths(incomes: seq<Record>, expenses: seq<Record>)
    ensures Summarize(incomes, expenses, AllMonths).income
            == SumPerValue(incomes, ByMonth, AvailableMonths(incomes, expenses))
    ensures Summarize(incomes, expenses, AllMonths).expense
            == SumPerValue(expenses, ByMonth, AvailableMonths(incomes, expenses))
  {
    var ms := AvailableMonths(incomes, expenses);
    StrictlySortedIsDistinct(ms);
    forall x | x in incomes ensures KeyOf(x, ByMonth) in ms {
      RecordMonthIsAvailable(incomes, expenses, x);
    }
    forall x | x in expenses ensures KeyOf(x, ByMonth) in ms {
      RecordMonthIsAvailable(incomes, expenses, x);
    }
    SumPerValueIsTotal(incomes, ByMonth, ms);
    SumPerValueIsTotal(expenses, ByMonth, ms);
  }

  /** Deleting the month `m` leaves the totals of every other month as they
      were, and the totals of `m` at 0. */
  lemma TotalsAfterDelete(incomes: seq<Record>, expenses: seq<Record>, m: string, w: string)
    ensures Summarize(Without(incomes, ByMonth, m), Without(expenses, ByMonth, m), Month(w))
            == if w == m then Totals(0.0, 0.0, 0.0) else Summarize(incomes, expenses, Month(w))
  {
    WhereAfterWithout(incomes, ByMonth, m, w);
    WhereAfterWithout(expenses, ByMonth, m, w);
  }

  /** `sum(presupuesto_mes.values())`, 0 for an empty budget; the budget
      page only admits non-negative amounts, whose total is not negative. */
  ghost function BudgetTotal(mb: map<string, real>): (total: real)
    ensures mb == map[] ==> total == 0.0
    ensures (forall c | c in mb :: mb[c] >= 0.0) ==> total >= 0.0
    decreases mb.Keys
  {
    if mb == map[] then 0.0
    else
      var c :| c in mb;
      mb[c] + BudgetTotal(mb - {c})
  }

  /** The total does not depend on the order the entries are added in. */
  lemma {:induction false} BudgetTotalWithout(mb: map<string, real>, c: string)
    requires c in mb
    ensures BudgetTotal(mb) == mb[c] + BudgetTotal(mb - {c})
    decreases mb.Keys
  {
    var d :| d in mb && BudgetTotal(mb) == mb[d] + BudgetTotal(mb - {d});
    if d != c {
      assert (mb - {d}) - {c} == (mb - {c}) - {d};
      BudgetTotalWithout(mb - {d}, c);
      BudgetTotalWithout(mb - {c}, d);
    }
  }

  /** Setting one category's amount changes the month total by the
      difference between the new amount and the old one. */
  lemma BudgetTotalAfterSet(mb: map<string, real>, c: string, amount: real)
    ensures BudgetTotal(mb[c := amount]) == BudgetTotal(mb) - BudgetOf(mb, c) + amount
  {
    var nb := mb[c := amount];
    BudgetTotalWithout(nb, c);
    assert nb - {c} == mb - {c};
    if c in mb {
      BudgetTotalWithout(mb, c);
    } else {
      assert mb - {c} == mb;
    }
  }

  // ---------------------------------------------------------------------
  // Per-category analysis ("Análisis por Categorías")

  datatype Status = Exceeded | Within | NoSpend

  datatype CategoryRow = CategoryRow(category: string, budget: real, spent: real,
                                     difference: real, percentUsed: real, status: Status)

  /** Amount spent on `cat` in the selected expenses: 0 when no expense
      names it. */
  function SpentOn(expenses: seq<Record>, cat: string): (spent: real)
    requires Keyed(expenses, ByCategory)
    ensures (forall x | x in expenses :: x.category != cat) ==> spent == 0.0
  {
    var w := Where(expenses, ByCategory, cat);
    assert w != [] ==> w[0] in expenses && w[0].category == cat by {
      if w != [] { assert w[0] in w; }
    }
    Sum(w)
  }

  /** With positive amounts, the spend on `cat` is never negative, and it is
      more than 0 exactly when some expense names it. */
  lemma SpentOnPositive(expenses: seq<Record>, cat: string)
    requires Keyed(expenses, ByCategory) && AllPositive(expenses)
    ensures SpentOn(expenses, cat) >= 0.0
    ensures SpentOn(expenses, cat) > 0.0 <==> exists x :: x in expenses && x.category == cat
  {
    var w := Where(expenses, ByCategory, cat);
    assert AllPositive(w);
    if w != [] {
      assert w[0] in w;
    }
    if exists x :: x in expenses && x.category == cat {
      var x :| x in expenses && x.category == cat;
      assert x in w;
    }
  }

  /** One row of the analysis table. */
  function AnalysisRow(expenses: seq<Record>, mb: map<string, real>, cat: string): (row: CategoryRow)
    requires Keyed(expenses, ByCategory)
    ensures row.category == cat && row.budget == BudgetOf(mb, cat) && row.spent == SpentOn(expenses, cat)
    ensures row.difference + row.spent == row.budget
    ensures row.budget > 0.0 ==> row.percentUsed * row.budget == row.spent * 100.0
    ensures row.budget <= 0.0 ==> row.percentUsed == 0.0
    ensures row.status == Exceeded <==> row.spent > row.budget
    ensures row.status == Within <==> 0.0 < row.spent <= row.budget
    ensures row.status == NoSpend <==> row.spent <= 0.0 && row.spent <= row.budget
  {
    var budget := BudgetOf(mb, cat);
    var spent := SpentOn(expenses, cat);
    var percent := if budget > 0.0 then spent / budget * 100.0 else 0.0;
    var status := if spent > budget then Exceeded else if spent > 0.0 then Within else NoSpend;
    CategoryRow(cat, budget, spent, budget - spent, percent, status)
  }

  /** With a positive budget, more than 100 % used is exactly "Excedido". */
  lemma OverHundredIffExceeded(expenses: seq<Record>, mb: map<string, real>, cat: string)
    requires Keyed(expenses, ByCategory)
    requires BudgetOf(mb, cat) > 0.0
    ensures AnalysisRow(expenses, mb, cat).percentUsed > 100.0
            <==> AnalysisRow(expenses, mb, cat).status == Exceeded
  {
    var row := AnalysisRow(expenses, mb, cat);
    ShareOver(row.percentUsed, row.budget, row.spent);
  }

  function AnalysisRows(expenses: seq<Record>, mb: map<string, real>, cats: seq<string>): (rows: seq<CategoryRow>)
    requires Keyed(expenses, ByCategory)
    ensures |rows| == |cats|
    ensures forall i :: 0 <= i < |cats| ==> rows[i] == AnalysisRow(expenses, mb, cats[i])
  {
    if cats == [] then [] else [AnalysisRow(expenses, mb, cats[0])] + AnalysisRows(expenses, mb, cats[1..])
  }

  /** The analysis table: one row per taxonomy category in taxonomy order,
      built only when there are selected expenses and the month has a
      budget. */
  function CategoryAnalysis(expenses: seq<Record>, mb: map<string, real>): (r: Option<seq<CategoryRow>>)
    requires Keyed(expenses, ByCategory)
    ensures r.Some? <==> expenses != [] && mb != map[]
    ensures r.Some? ==> |r.value| == |Taxonomy.Categories|
                        && forall i :: 0 <= i < |Taxonomy.Categories| ==>
                             r.value[i] == AnalysisRow(expenses, mb, Taxonomy.Categories[i])
  {
    if expenses == [] || mb == map[] then None
    else Some(AnalysisRows(expenses, mb, Taxonomy.Categories))
  }

  /** With "Todos los meses" there is no budget and so no analysis. */
  lemma NoAnalysisForAllMonths(expenses: seq<Record>, budgets: map<string, map<string, real>>)
    requires Keyed(expenses, ByCategory)
    ensures CategoryAnalysis(Selected(expenses, AllMonths), BudgetFor(budgets, AllMonths)).None?
  {
  }

  function SpentOfRows(rows: seq<CategoryRow>): real {
    if rows == [] then 0.0 else rows[0].spent + SpentOfRows(rows[1..])
  }

  lemma {:induction false} AnalysisRowsSpent(expenses: seq<Record>, mb: map<string, real>, cats: seq<string>)
    requires Keyed(expenses, ByCategory)
    ensures SpentOfRows(AnalysisRows(expenses, mb, cats)) == SumPerValue(expenses, ByCategory, cats)
  {
    if cats != [] {
      AnalysisRowsSpent(expenses, mb, cats[1..]);
      assert AnalysisRows(expenses, mb, cats)[1..] == AnalysisRows(expenses, mb, cats[1..]);
    }
  }

  /** The "Gastado" column adds up to the selection's total expense when
      every expense is in a taxonomy category (as the forms guarantee). */
  lemma AnalysisAccountsForAllSpending(expenses: seq<Record>, mb: map<string, real>)
    requires Keyed(expenses, ByCategory)
    requires forall x | x in expenses :: x.category in Taxonomy.Categories
    requires expenses != [] && mb != map[]
    ensures SpentOfRows(CategoryAnalysis(expenses, mb).value) == Sum(expenses)
  {
    AnalysisRowsSpent(expenses, mb, Taxonomy.Categories);
    Taxonomy.CategoriesMatchTable();
    SumPerValueIsTotal(expenses, ByCategory, Taxonomy.Categories);
  }

  /** The expense list of a valid store meets the requirements above. */
  lemma GoodExpensesAreCategorized(expenses: seq<Record>)
    requires Store.AllGood(expenses, true)
    ensures Keyed(expenses, ByCategory)
    ensures forall x | x in expenses :: x.category in Taxonomy.Categories
    ensures forall x | x in expenses :: x.subcategory in Taxonomy.Subcategories(x.category)
  {
    forall x | x in expenses
      ensures x.Expense? && x.category in Taxonomy.Categories
      ensures x.subcategory in Taxonomy.Subcategories(x.category)
    {
      assert Store.Good(x, true);
    }
  }

  // ---------------------------------------------------------------------
  // Spend per (category, subcategory) on the "Balance" page

  datatype SubcategoryRow = SubcategoryRow(category: string, subcategory: string, spent: real,
                                           budget: real, exceeded: bool)

  /** One bar: the subcategory's spend against its CATEGORY's budget. */
  function SubcategoryBar(expenses: seq<Record>, mb: map<string, real>, cat: string, sub: string): (row: SubcategoryRow)
    requires Keyed(expenses, ByCategory)
    ensures row.category == cat && row.subcategory == sub
    ensures row.spent == Sum(Where(Where(expenses, ByCategory, cat), BySubcategory, sub))
    ensures row.budget == BudgetOf(mb, cat)
    ensures row.exceeded <==> row.spent > row.budget
  {
    var spent := Sum(Where(Where(expenses, ByCategory, cat), BySubcategory, sub));
    SubcategoryRow(cat, sub, spent, BudgetOf(mb, cat), spent > BudgetOf(mb, cat))
  }

  function SubcategoryBars(expenses: seq<Record>, mb: map<string, real>, cat: string, subs: seq<string>): (rows: seq<SubcategoryRow>)
    requires Keyed(expenses, ByCategory)
    ensures |rows| == |subs|
    ensures forall i :: 0 <= i < |subs| ==> rows[i] == SubcategoryBar(expenses, mb, cat, subs[i])
    ensures forall row | row in rows :: row.category == cat && row.subcategory in subs
                                        && row.budget == BudgetOf(mb, cat) && (row.exceeded <==> row.spent > row.budget)
    ensures forall row | row in rows :: row.spent == Sum(Where(Where(expenses, ByCategory, cat), BySubcategory, row.subcategory))
  {
    if subs == [] then []
    else [SubcategoryBar(expenses, mb, cat, subs[0])] + SubcategoryBars(expenses, mb, cat, subs[1..])
  }

  /** The bars of the categories `cats`, each category's subcategories in
      their taxonomy order. */
  function CategoryBars(expenses: seq<Record>, mb: map<string, real>, cats: seq<string>): (rows: seq<SubcategoryRow>)
    requires Keyed(expenses, ByCategory)
    ensures cats != [] ==> rows == SubcategoryBars(expenses, mb, cats[0], Taxonomy.Subcategories(cats[0]))
                                   + CategoryBars(expenses, mb, cats[1..])
    ensures forall row | row in rows :: row.category in cats
                                        && row.subcategory in Taxonomy.Subcategories(row.category)
                                        && row.budget == BudgetOf(mb, row.category)
                                        && (row.exceeded <==> row.spent > row.budget)
    ensures forall row | row in rows ::
              row.spent == Sum(Where(Where(expenses, ByCategory, row.category), BySubcategory, row.subcategory))
  {
    if cats == [] then []
    else SubcategoryBars(expenses, mb, cats[0], Taxonomy.Subcategories(cats[0]))
         + CategoryBars(expenses, mb, cats[1..])
  }

  /** The "Gastos por Subcategoría" chart of month `month`: shown only when
      the month has expenses; each bar is the month's spend on one taxonomy
      pair against its category's budget. */
  function SubcategoryChart(expenses: seq<Record>, budgets: map<string, map<string, real>>, month: string)
    : (r: Option<seq<SubcategoryRow>>)
    requires Keyed(expenses, ByCategory)
    ensures r.Some? <==> Where(expenses, ByMonth, month) != []
    ensures r.Some? ==> forall row | row in r.value ::
                          row.category in Taxonomy.Categories
                          && row.subcategory in Taxonomy.Subcategories(row.category)
                          && row.budget == BudgetOf(BudgetFor(budgets, Month(month)), row.category)
                          && (row.exceeded <==> row.spent > row.budget)
    ensures r.Some? ==> forall row | row in r.value ::
                          row.spent == Sum(Where(Where(Where(expenses, ByMonth, month), ByCategory, row.category),
                                                 BySubcategory, row.subcategory))
  {
    var monthly := Where(expenses, ByMonth, month);
    if monthly == [] then None
    else Some(CategoryBars(monthly, BudgetFor(budgets, Month(month)), Taxonomy.Categories))
  }

  /** Every subcategory of every category in `cats` has its bar. */
  lemma {:induction false} CategoryBarsCover(expenses: seq<Record>, mb: map<string, real>, cats: seq<string>,
                                             cat: string, sub: string)
    requires Keyed(expenses, ByCategory)
    requires cat in cats && sub in Taxonomy.Subcategories(cat)
    ensures SubcategoryBar(expenses, mb, cat, sub) in CategoryBars(expenses, mb, cats)
  {
    var here := SubcategoryBars(expenses, mb, cats[0], Taxonomy.Subcategories(cats[0]));
    if cats[0] == cat {
      var i :| 0 <= i < |Taxonomy.Subcategories(cat)| && Taxonomy.Subcategories(cat)[i] == sub;
      assert here[i] == SubcategoryBar(expenses, mb, cat, sub);
      assert here[i] in here + CategoryBars(expenses, mb, cats[1..]);
    } else {
      CategoryBarsCover(expenses, mb, cats[1..], cat, sub);
    }
  }

  /** A month with expenses shows a bar for every (category, subcategory)
      pair of the taxonomy, measured on that month's expenses. */
  lemma SubcategoryChartCoversTaxonomy(expenses: seq<Record>, budgets: map<string, map<string, real>>,
                                       month: string, cat: string, sub: string)
    requires Keyed(expenses, ByCategory)
    requires cat in Taxonomy.Categories && sub in Taxonomy.Subcategories(cat)
    ensures Where(expenses, ByMonth, month) != [] ==>
              SubcategoryBar(Where(expenses, ByMonth, month), BudgetFor(budgets, Month(month)), cat, sub)
                in SubcategoryChart(expenses, budgets, month).value
  {
    CategoryBarsCover(Where(expenses, ByMonth, month), BudgetFor(budgets, Month(month)), Taxonomy.Categories, cat, sub);
  }

  function SpentOfBars(rows: seq<SubcategoryRow>): real {
    if rows == [] then 0.0 else rows[0].spent + SpentOfBars(rows[1..])
  }

  lemma {:induction false} SpentOfBarsAppend(a: seq<SubcategoryRow>, b: seq<SubcategoryRow>)
    ensures SpentOfBars(a + b) == SpentOfBars(a) + SpentOfBars(b)
  {
    if a == [] {
      assert a + b == b;
    } else {
      assert (a + b)[0] == a[0] && (a + b)[1..] == a[1..] + b;
      SpentOfBarsAppend(a[1..], b);
    }
  }

  lemma {:induction false} SubcategoryBarsSpent(expenses: seq<Record>, mb: map<string, real>, cat: string, subs: seq<string>)
    requires Keyed(expenses, ByCategory)
    ensures SpentOfBars(SubcategoryBars(expenses, mb, cat, subs))
            == SumPerValue(Where(expenses, ByCategory, cat), BySubcategory, subs)
  {
    if subs != [] {
      SubcategoryBarsSpent(expenses, mb, cat, subs[1..]);
      assert SubcategoryBars(expenses, mb, cat, subs)[1..] == SubcategoryBars(expenses, mb, cat, subs[1..]);
    }
  }

  lemma {:induction false} CategoryBarsSpent(expenses: seq<Record>, mb: map<string, real>, cats: seq<string>)
    requires Keyed(expenses, ByCategory)
    requires forall x | x in expenses :: x.subcategory in Taxonomy.Subcategories(x.category)
    ensures SpentOfBars(CategoryBars(expenses, mb, cats)) == SumPerValue(expenses, ByCategory, cats)
  {
    if cats != [] {
      var cat := cats[0];
      var subs := Taxonomy.Subcategories(cat);
      var inCat := Where(expenses, ByCategory, cat);
      CategoryBarsSpent(expenses, mb, cats[1..]);
      SpentOfBarsAppend(SubcategoryBars(expenses, mb, cat, subs), CategoryBars(expenses, mb, cats[1..]));
      SubcategoryBarsSpent(expenses, mb, cat, subs);
      Taxonomy.SubcategoriesDistinct(cat);
      SumPerValueIsTotal(inCat, BySubcategory, subs);
    }
  }

  /** The bars split the month's spending without losing or counting twice
      any expense, when every expense is classified. */
  lemma SubcategoryChartAccountsForAllSpending(expenses: seq<Record>, budgets: map<string, map<string, real>>, month: string)
    requires Keyed(expenses, ByCategory)
    requires forall x | x in expenses :: x.category in Taxonomy.Categories
    requires forall x | x in expenses :: x.subcategory in Taxonomy.Subcategories(x.category)
    requires Where(expenses, ByMonth, month) != []
    ensures SpentOfBars(SubcategoryChart(expenses, budgets, month).value) == Sum(Where(expenses, ByMonth, month))
  {
    var monthly := Where(expenses, ByMonth, month);
    CategoryBarsSpent(monthly, BudgetFor(budgets, Month(month)), Taxonomy.Categories);
    Taxonomy.CategoriesMatchTable();
    SumPerValueIsTotal(monthly, ByCategory, Taxonomy.Categories);
  }

  // ---------------------------------------------------------------------
  // Grouped summaries ("Resumen por Subcategoría", "Resumen por Medio de
  // Pago", "Resumen por Categorías")

  datatype Group = Group(key: string, total: real)

  function KeysOf(gs: seq<Group>): (ks: seq<string>)
    ensures |ks| == |gs|
    ensures forall i :: 0 <= i < |gs| ==> ks[i] == gs[i].key
  {
    if gs == [] then [] else [gs[0].key] + KeysOf(gs[1..])
  }

  function SumTotals(gs: seq<Group>): real {
    if gs == [] then 0.0 else gs[0].total + SumTotals(gs[1..])
  }

  function GroupsOf(s: seq<Record>, k: Key, keys: seq<string>): (gs: seq<Group>)
    requires Keyed(s, k)
    ensures KeysOf(gs) == keys
    ensures forall g | g in gs :: g.total == Sum(Where(s, k, g.key))
    ensures SumTotals(gs) == SumPerValue(s, k, keys)
  {
    if keys == [] then []
    else
      var rest := GroupsOf(s, k, keys[1..]);
      var gs := [Group(keys[0], Sum(Where(s, k, keys[0])))] + rest;
      assert gs[1..] == rest;
      gs
  }

  /** `df.groupby(k)["monto"].sum()`: one group per value of the column, in
      increasing order of value, holding the sum of its amounts. */
  function GroupTotals(s: seq<Record>, k: Key): (gs: seq<Group>)
    requires Keyed(s, k)
    ensures StrictlySorted(KeysOf(gs))
    ensures forall v :: v in KeysOf(gs) <==> Where(s, k, v) != []
    ensures forall g | g in gs :: g.total == Sum(Where(s, k, g.key))
  {
    GroupsOf(s, k, SortedDistinct(Values(s, k)))
  }

  /** Grouping loses no amount: the group totals add up to the total. */
  lemma GroupTotalsAddUp(s: seq<Record>, k: Key)
    requires Keyed(s, k)
    ensures SumTotals(GroupTotals(s, k)) == Sum(s)
  {
    var keys := SortedDistinct(Values(s, k));
    StrictlySortedIsDistinct(keys);
    forall x | x in s ensures KeyOf(x, k) in keys {
      assert x in Where(s, k, KeyOf(x, k));
    }
    SumPerValueIsTotal(s, k, keys);
  }

  predicate DistinctKeys(gs: seq<Group>) {
    forall i, j :: 0 <= i < j < |gs| ==> gs[i].key != gs[j].key
  }

  predicate ByTotalDescending(gs: seq<Group>) {
    forall i, j :: 0 <= i < j < |gs| ==> gs[i].total >= gs[j].total
  }

  /** Put `g` before the first group whose total is not larger. */
  function InsertByTotal(g: Group, gs: seq<Group>): (r: seq<Group>)
    requires ByTotalDescending(gs)
    ensures ByTotalDescending(r)
    ensures forall h | h in r :: h == g || h in gs
    ensures multiset(r) == multiset(gs) + multiset{g}
    ensures SumTotals(r) == g.total + SumTotals(gs)
  {
    if gs == [] || g.total >= gs[0].total then
      PrependDescending(g, gs);
      [g] + gs
    else
      var t := InsertByTotal(g, gs[1..]);
      InsertBehind(gs[0], g, gs[1..], t);
      assert gs == [gs[0]] + gs[1..];
      [gs[0]] + t
  }

  /** When `g` goes below the head `x` of a descending table, putting `x`
      back in front of the insertion into the rest gives the insertion into
      the whole table. */
  lemma InsertBehind(x: Group, g: Group, rest: seq<Group>, t: seq<Group>)
    requires ByTotalDescending([x] + rest) && g.total < x.total
    requires ByTotalDescending(t)
    requires forall h | h in t :: h == g || h in rest
    requires multiset(t) == multiset(rest) + multiset{g}
    requires SumTotals(t) == g.total + SumTotals(rest)
    ensures ByTotalDescending([x] + t)
    ensures forall h | h in [x] + t :: h == g || h in [x] + rest
    ensures multiset([x] + t) == multiset([x] + rest) + multiset{g}
    ensures SumTotals([x] + t) == g.total + SumTotals([x] + rest)
  {
    HeadBoundsRest(x, rest);
    assert forall h | h in t :: h.total <= x.total;
    PrependDescending(x, t);
    Prepended(x, t);
    Prepended(x, rest);
  }

  /** The head of a descending table is at least every group after it. */
  lemma HeadBoundsRest(x: Group, rest: seq<Group>)
    requires ByTotalDescending([x] + rest)
    ensures forall h | h in rest :: h.total <= x.total
  {
    forall h | h in rest ensures h.total <= x.total {
      var j :| 0 <= j < |rest| && rest[j] == h;
      assert ([x] + rest)[0] == x && ([x] + rest)[j + 1] == h;
    }
  }

  /** What putting one group in front of a table adds to it. */
  lemma Prepended(x: Group, t: seq<Group>)
    ensures forall h | h in [x] + t :: h == x || h in t
    ensures multiset([x] + t) == multiset{x} + multiset(t)
    ensures SumTotals([x] + t) == x.total + SumTotals(t)
  {
    assert ([x] + t)[1..] == t;
  }

  lemma PrependDescending(x: Group, t: seq<Group>)
    requires ByTotalDescending(t)
    requires forall h | h in t :: h.total <= x.total
    ensures ByTotalDescending([x] + t)
  {
    forall i, j | 0 <= i < j < |[x] + t| ensures ([x] + t)[i].total >= ([x] + t)[j].total {
      assert ([x] + t)[j] == t[j - 1];
      if i > 0 { assert ([x] + t)[i] == t[i - 1]; } else { assert t[j - 1] in t; }
    }
  }

  /** `sort_values("Monto Total", ascending=False)`. Groups with equal totals
      keep their order here. */
  function SortByTotal(gs: seq<Group>): (r: seq<Group>)
    ensures ByTotalDescending(r)
    ensures multiset(r) == multiset(gs)
    ensures SumTotals(r) == SumTotals(gs)
  {
    if gs == [] then []
    else
      assert gs == [gs[0]] + gs[1..];
      InsertByTotal(gs[0], SortByTotal(gs[1..]))
  }

  /** Reordering keeps a table's keys distinct. */
  lemma PermutationKeepsKeysDistinct(gs: seq<Group>, r: seq<Group>)
    requires DistinctKeys(gs) && multiset(r) == multiset(gs)
    ensures DistinctKeys(r)
  {
    forall i, j | 0 <= i < j < |r| ensures r[i].key != r[j].key {
      if r[i].key == r[j].key {
        assert r[i] in multiset(gs) && r[j] in multiset(gs);
        var a :| 0 <= a < |gs| && gs[a] == r[i];
        var b :| 0 <= b < |gs| && gs[b] == r[j];
        if r[i] == r[j] {
          // the same group twice in `r` but at most once in `gs`
          CountAtMostOne(gs, a);
          CountTwo(r, i, j);
        }
      }
    }
  }

  lemma CountTwo(r: seq<Group>, i: nat, j: nat)
    requires i < j < |r| && r[i] == r[j]
    ensures multiset(r)[r[i]] >= 2
  {
    assert r == r[..i] + [r[i]] + r[i + 1..j] + [r[j]] + r[j + 1..];
  }

  lemma CountAtMostOne(gs: seq<Group>, a: nat)
    requires DistinctKeys(gs) && a < |gs|
    ensures multiset(gs)[gs[a]] <= 1
  {
    assert gs == gs[..a] + [gs[a]] + gs[a + 1..];
    assert gs[a] !in gs[..a] by {
      forall k | 0 <= k < a ensures gs[..a][k] != gs[a] { assert gs[..a][k] == gs[k]; }
    }
    assert gs[a] !in gs[a + 1..] by {
      forall k | a + 1 <= k < |gs| ensures gs[k] != gs[a] { }
    }
    assert multiset(gs[..a])[gs[a]] == 0;
    assert multiset(gs[a + 1..])[gs[a]] == 0;
  }

  datatype Share = Share(key: string, total: real, percent: real)

  /** The "Porcentaje" column: each total as a percentage of `grand`; an
      all-zero table has no percentages and reads 0 here. */
  function WithShares(gs: seq<Group>, grand: real): (r: seq<Share>)
    ensures |r| == |gs|
    ensures forall i :: 0 <= i < |gs| ==> r[i].key == gs[i].key && r[i].total == gs[i].total
    ensures grand != 0.0 ==> forall i :: 0 <= i < |gs| ==> r[i].percent * grand == gs[i].total * 100.0
    ensures grand == 0.0 ==> forall i :: 0 <= i < |gs| ==> r[i].percent == 0.0
  {
    if gs == [] then []
    else
      var p := if grand == 0.0 then 0.0 else gs[0].total / grand * 100.0;
      [Share(gs[0].key, gs[0].total, p)] + WithShares(gs[1..], grand)
  }

  /** Each row's percentage is its total as a share of `grand`, or 0 when
      `grand` is 0. */
  predicate SharesOf(r: seq<Share>, grand: real) {
    if grand != 0.0 then forall i :: 0 <= i < |r| ==> r[i].percent * grand == r[i].total * 100.0
    else forall i :: 0 <= i < |r| ==> r[i].percent == 0.0
  }

  lemma WithSharesAreShares(gs: seq<Group>, grand: real)
    ensures SharesOf(WithShares(gs, grand), grand)
  {
  }

  function SumPercents(r: seq<Share>): real {
    if r == [] then 0.0 else r[0].percent + SumPercents(r[1..])
  }

  lemma {:induction false} SumPercentsScaled(gs: seq<Group>, grand: real)
    requires grand != 0.0
    ensures SumPercents(WithShares(gs, grand)) * grand == SumTotals(gs) * 100.0
  {
    if gs != [] {
      SumPercentsScaled(gs[1..], grand);
      var r := WithShares(gs, grand);
      assert r[1..] == WithShares(gs[1..], grand);
      assert r[0].percent * grand == gs[0].total * 100.0;
    }
  }

  /** A table with its shares of its own total. */
  function Summary(gs: seq<Group>): seq<Share> {
    WithShares(gs, SumTotals(gs))
  }

  /** Before rounding, the shares of a table whose total is not 0 add up to
      100. */
  lemma SharesAddUpToHundred(gs: seq<Group>)
    requires SumTotals(gs) != 0.0
    ensures SumPercents(Summary(gs)) == 100.0
  {
    var grand := SumTotals(gs);
    SumPercentsScaled(gs, grand);
    MulCancel(SumPercents(Summary(gs)), 100.0, grand);
  }

  /** A grouped table with its shares: "Resumen por Subcategoría" is
      `GroupSummary(expenses, BySubcategory)` and "Resumen por Categorías"
      is `GroupSummary(expenses, ByCategory)`. */
  function GroupSummary(s: seq<Record>, k: Key): (r: seq<Share>)
    requires Keyed(s, k)
    ensures StrictlySorted(KeysOf(WithoutShares(r)))
    ensures forall v :: v in KeysOf(WithoutShares(r)) <==> Where(s, k, v) != []
    ensures forall i :: 0 <= i < |r| ==> r[i].total == Sum(Where(s, k, r[i].key))
    ensures SharesOf(r, Sum(s))
  {
    var gs := GroupTotals(s, k);
    GroupTotalsAddUp(s, k);
    WithSharesAreShares(gs, SumTotals(gs));
    SharesKeepGroups(gs, SumTotals(gs));
    assert forall i :: 0 <= i < |gs| ==> gs[i] in gs;
    Summary(gs)
  }

  /** The shares of a grouped table of selected expenses add up to 100. */
  lemma GroupSharesAddUp(s: seq<Record>, k: Key)
    requires Keyed(s, k)
    requires AllPositive(s) && s != []
    ensures SumPercents(GroupSummary(s, k)) == 100.0
  {
    GroupTotalsAddUp(s, k);
    SharesAddUpToHundred(GroupTotals(s, k));
  }

  /** "Resumen por Medio de Pago": the groups by payment method, largest
      total first. */
  function PaymentSummary(expenses: seq<Record>): (r: seq<Share>)
    requires Keyed(expenses, ByPaymentMethod)
    ensures forall i, j :: 0 <= i < j < |r| ==> r[i].total >= r[j].total
    ensures forall i, j :: 0 <= i < j < |r| ==> r[i].key != r[j].key
    ensures forall v :: v in KeysOf(WithoutShares(r)) <==> Where(expenses, ByPaymentMethod, v) != []
    ensures forall i :: 0 <= i < |r| ==> r[i].total == Sum(Where(expenses, ByPaymentMethod, r[i].key))
    ensures SharesOf(r, Sum(expenses))
  {
    var sorted := SortByTotal(GroupTotals(expenses, ByPaymentMethod));
    GroupTotalsAddUp(expenses, ByPaymentMethod);
    RankedGroups(expenses, ByPaymentMethod);
    WithSharesAreShares(sorted, SumTotals(sorted));
    SharesKeepGroups(sorted, SumTotals(sorted));
    Summary(sorted)
  }

  /** The groups ordered by total keep one group per value, each with its
      own sum. */
  lemma RankedGroups(s: seq<Record>, k: Key)
    requires Keyed(s, k)
    ensures DistinctKeys(SortByTotal(GroupTotals(s, k)))
    ensures forall v :: v in KeysOf(SortByTotal(GroupTotals(s, k))) <==> Where(s, k, v) != []
    ensures forall g | g in SortByTotal(GroupTotals(s, k)) :: g.total == Sum(Where(s, k, g.key))
  {
    var gs := GroupTotals(s, k);
    var sorted := SortByTotal(gs);
    StrictlySortedIsDistinct(KeysOf(gs));
    assert DistinctKeys(gs) by {
      forall i, j | 0 <= i < j < |gs| ensures gs[i].key != gs[j].key {
        assert KeysOf(gs)[i] == gs[i].key && KeysOf(gs)[j] == gs[j].key;
      }
    }
    PermutationKeepsKeysDistinct(gs, sorted);
    PermutationKeepsKeys(gs, sorted);
  }

  /** Reordering keeps the groups and their keys. */
  lemma PermutationKeepsKeys(gs: seq<Group>, r: seq<Group>)
    requires multiset(r) == multiset(gs)
    ensures forall g :: g in r <==> g in gs
    ensures forall v :: v in KeysOf(r) <==> v in KeysOf(gs)
  {
    assert forall g :: g in r <==> g in gs by {
      forall g ensures g in r <==> g in gs {
        assert g in r <==> g in multiset(r);
        assert g in gs <==> g in multiset(gs);
      }
    }
    forall v ensures v in KeysOf(r) <==> v in KeysOf(gs) {
      if v in KeysOf(r) {
        var i :| 0 <= i < |r| && KeysOf(r)[i] == v;
        assert r[i] in gs;
        var j :| 0 <= j < |gs| && gs[j] == r[i];
        assert KeysOf(gs)[j] == v;
      }
      if v in KeysOf(gs) {
        var j :| 0 <= j < |gs| && KeysOf(gs)[j] == v;
        assert gs[j] in r;
        var i :| 0 <= i < |r| && r[i] == gs[j];
        assert KeysOf(r)[i] == v;
      }
    }
  }

  /** The payment summary's shares add up to 100 whenever there are
      selected expenses with positive amounts. */
  lemma PaymentSharesAddUp(expenses: seq<Record>)
    requires Keyed(expenses, ByPaymentMethod)
    requires AllPositive(expenses) && expenses != []
    ensures SumPercents(PaymentSummary(expenses)) == 100.0
  {
    GroupTotalsAddUp(expenses, ByPaymentMethod);
    SharesAddUpToHundred(SortByTotal(GroupTotals(expenses, ByPaymentMethod)));
  }

  /** A table with percentages read without its "Porcentaje" column. */
  function WithoutShares(r: seq<Share>): seq<Group> {
    if r == [] then [] else [Group(r[0].key, r[0].total)] + WithoutShares(r[1..])
  }

  /** Adding percentages and dropping them again gives back the table. */
  lemma {:induction false} SharesKeepGroups(gs: seq<Group>, grand: real)
    ensures WithoutShares(WithShares(gs, grand)) == gs
  {
    if gs != [] {
      var r := WithShares(gs, grand);
      assert r[1..] == WithShares(gs[1..], grand);
      SharesKeepGroups(gs[1..], grand);
    }
  }

  // ---------------------------------------------------------------------
  // Alerts ("Alertas y Recomendaciones")

  datatype Alert =
    | CriticalBalance
    | ExceededCategories(overages: seq<(string, real)>)
    | LowSavings
    | GoodSavings

  /** The categories of `cats` whose spend is over a positive budget, with
      the amount over, in the order of `cats`. */
  function Overages(expenses: seq<Record>, mb: map<string, real>, cats: seq<string>): (r: seq<(string, real)>)
    requires Keyed(expenses, ByCategory)
    ensures |r| <= |cats|
    ensures forall c, o :: (c, o) in r ==>
              c in cats && SpentOn(expenses, c) > BudgetOf(mb, c) > 0.0 && o == SpentOn(expenses, c) - BudgetOf(mb, c)
    ensures forall c | c in cats && SpentOn(expenses, c) > BudgetOf(mb, c) > 0.0 ::
              (c, SpentOn(expenses, c) - BudgetOf(mb, c)) in r
    ensures r == [] <==> forall c | c in cats :: !(SpentOn(expenses, c) > BudgetOf(mb, c) > 0.0)
  {
    if cats == [] then []
    else
      var c := cats[0];
      var rest := Overages(expenses, mb, cats[1..]);
      if SpentOn(expenses, c) > BudgetOf(mb, c) > 0.0
      then [(c, SpentOn(expenses, c) - BudgetOf(mb, c))] + rest
      else rest
  }

  /** No category is named twice in a list of overages. */
  predicate NamedOnce(r: seq<(string, real)>) {
    forall i, j | 0 <= i < j < |r| :: r[i].0 != r[j].0
  }

  /** A category that `cats` names once is named at most once among the
      overages. */
  lemma {:induction false} OveragesNameEachOnce(expenses: seq<Record>, mb: map<string, real>, cats: seq<string>)
    requires Keyed(expenses, ByCategory)
    requires Distinct(cats)
    ensures NamedOnce(Overages(expenses, mb, cats))
    decreases |cats|
  {
    if cats != [] {
      var c := cats[0];
      var rest := Overages(expenses, mb, cats[1..]);
      assert Distinct(cats[1..]) by {
        forall i, j | 0 <= i < j < |cats[1..]| ensures cats[1..][i] != cats[1..][j] {
          assert cats[1..][i] == cats[i + 1] && cats[1..][j] == cats[j + 1];
        }
      }
      OveragesNameEachOnce(expenses, mb, cats[1..]);
      if SpentOn(expenses, c) > BudgetOf(mb, c) > 0.0 {
        assert c !in cats[1..] by {
          forall k | 0 <= k < |cats[1..]| ensures cats[1..][k] != c {
            assert cats[1..][k] == cats[k + 1];
          }
        }
        forall p | p in rest ensures p.0 != c {
          assert (p.0, p.1) in rest;
        }
        NamedOnceInFront(c, SpentOn(expenses, c) - BudgetOf(mb, c), rest);
      }
    }
  }

  /** The categories named by a list of overages, in order. */
  function Names(r: seq<(string, real)>): (names: seq<string>)
    ensures |names| == |r|
    ensures forall i :: 0 <= i < |r| ==> names[i] == r[i].0
  {
    if r == [] then [] else [r[0].0] + Names(r[1..])
  }

  /** The overages follow the order of a category list without repeats. */
  lemma {:induction false} OveragesFollowCategories(expenses: seq<Record>, mb: map<string, real>, cats: seq<string>)
    requires Keyed(expenses, ByCategory)
    requires Distinct(cats)
    ensures SubsequenceOf(Names(Overages(expenses, mb, cats)), cats)
    decreases |cats|
  {
    if cats != [] {
      var c := cats[0];
      var rest := Overages(expenses, mb, cats[1..]);
      DistinctTail(cats);
      OveragesFollowCategories(expenses, mb, cats[1..]);
      if SpentOn(expenses, c) > BudgetOf(mb, c) > 0.0 {
        var r := [(c, SpentOn(expenses, c) - BudgetOf(mb, c))] + rest;
        assert Names(r)[1..] == Names(rest);
      } else if rest != [] {
        assert (rest[0].0, rest[0].1) in rest;
        assert Names(rest)[0] != c;
      }
    }
  }

  /** Naming a new category in front keeps every category named once. */
  lemma NamedOnceInFront(c: string, o: real, rest: seq<(string, real)>)
    requires NamedOnce(rest)
    requires forall p | p in rest :: p.0 != c
    ensures NamedOnce([(c, o)] + rest)
  {
    var r := [(c, o)] + rest;
    forall i, j | 0 <= i < j < |r| ensures r[i].0 != r[j].0 {
      assert r[j] == rest[j - 1] && r[j] in rest;
      if i > 0 { assert r[i] == rest[i - 1]; }
    }
  }

  /** The place of an alert in the report: the critical alert, then the
      exceeded categories, then the one savings message. */
  function Rank(a: Alert): nat {
    match a
    case CriticalBalance => 0
    case ExceededCategories(_) => 1
    case LowSavings => 2
    case GoodSavings => 2
  }

  /** Each alert ranks strictly before the next one. */
  predicate InReportOrder(alerts: seq<Alert>) {
    |alerts| <= 1 || (Rank(alerts[0]) < Rank(alerts[1]) && InReportOrder(alerts[1..]))
  }

  /** The overages the exceeded alert reports (`if presupuesto_mes:`): none
      when the month has no budget, otherwise exactly the taxonomy's
      categories whose spend is over a positive budget, with the amount
      over. */
  function MonthOverages(expenses: seq<Record>, mb: map<string, real>): (over: seq<(string, real)>)
    requires Keyed(expenses, ByCategory)
    ensures mb == map[] ==> over == []
    ensures mb != map[] ==> forall c, o :: (c, o) in over <==>
              c in Taxonomy.Categories && SpentOn(expenses, c) > BudgetOf(mb, c) > 0.0
              && o == SpentOn(expenses, c) - BudgetOf(mb, c)
    ensures NamedOnce(over)
    ensures SubsequenceOf(Names(over), Taxonomy.Categories)
  {
    if mb != map[] then
      Taxonomy.CategoriesDistinct();
      OveragesNameEachOnce(expenses, mb, Taxonomy.Categories);
      OveragesFollowCategories(expenses, mb, Taxonomy.Categories);
      Overages(expenses, mb, Taxonomy.Categories)
    else []
  }

  /** Everything the report shows under "Alertas y Recomendaciones", given
      the totals and the overage list: each kind of alert at most once, in
      the report's order, with at most one of the two savings messages. */
  function Alerts(t: Totals, over: seq<(string, real)>): (alerts: seq<Alert>)
    ensures InReportOrder(alerts)
    ensures ExceededCategories(over) in alerts <==> over != []
    ensures forall a | a in alerts && a.ExceededCategories? :: a.overages == over
  {
    var critical := if t.balance < 0.0 then [CriticalBalance] else [];
    var exceeded := if over != [] then [ExceededCategories(over)] else [];
    var savings :=
      if t.income > 0.0 then
        var rate := (t.income - t.expense) / t.income * 100.0;
        if rate < 10.0 then [LowSavings] else if rate > 20.0 then [GoodSavings] else []
      else [];
    RankedParts(critical, exceeded, savings);
    critical + exceeded + savings
  }

  /** A critical part, an exceeded part and a savings part of at most one
      alert each are in rank order once put together. */
  lemma RankedParts(critical: seq<Alert>, exceeded: seq<Alert>, savings: seq<Alert>)
    requires critical == [] || critical == [CriticalBalance]
    requires exceeded == [] || (|exceeded| == 1 && exceeded[0].ExceededCategories?)
    requires savings == [] || savings == [LowSavings] || savings == [GoodSavings]
    ensures InReportOrder(critical + exceeded + savings)
  {
    var a := critical + exceeded + savings;
    if |a| > 1 {
      assert InReportOrder(a[1..]) by {
        if |a| > 2 { assert a[1..][1..] == a[2..]; }
      }
    }
  }

  /** The alerts of the report for `filter`: critical exactly when the
      selected expenses exceed the selected incomes, and never an exceeded
      category under "Todos los meses", which has no budget. */
  function ReportAlerts(incomes: seq<Record>, expenses: seq<Record>, budgets: map<string, map<string, real>>,
                        filter: MonthFilter): (alerts: seq<Alert>)
    requires Keyed(expenses, ByCategory)
    ensures CriticalBalance in alerts <==> Sum(Selected(incomes, filter)) < Sum(Selected(expenses, filter))
    ensures filter.AllMonths? ==> forall a | a in alerts :: !a.ExceededCategories?
  {
    var t := Summarize(incomes, expenses, filter);
    var over := MonthOverages(Selected(expenses, filter), BudgetFor(budgets, filter));
    CriticalIffNegativeBalance(t, over);
    Alerts(t, over)
  }

  /** The critical alert appears exactly when expenses exceed incomes. */
  lemma CriticalIffNegativeBalance(t: Totals, over: seq<(string, real)>)
    ensures CriticalBalance in Alerts(t, over) <==> t.balance < 0.0
  {
    if t.balance < 0.0 { assert Alerts(t, over)[0] == CriticalBalance; }
  }

  /** The savings rate is below 10 % exactly when expenses are more than
      90 % of a positive income. */
  lemma LowSavingsMeaning(t: Totals, over: seq<(string, real)>)
    requires t.balance == t.income - t.expense
    ensures LowSavings in Alerts(t, over) <==> t.income > 0.0 && t.expense * 10.0 > t.income * 9.0
  {
    if t.income > 0.0 { SavingsRate(t); }
    var a := Alerts(t, over);
    if t.income > 0.0 && t.expense * 10.0 > t.income * 9.0 { assert a[|a| - 1] == LowSavings; }
  }

  /** The savings rate is above 20 % exactly when expenses are less than
      80 % of a positive income. */
  lemma GoodSavingsMeaning(t: Totals, over: seq<(string, real)>)
    requires t.balance == t.income - t.expense
    ensures GoodSavings in Alerts(t, over) <==> t.income > 0.0 && t.expense * 5.0 < t.income * 4.0
  {
    if t.income > 0.0 { SavingsRate(t); }
    var a := Alerts(t, over);
    if t.income > 0.0 && t.expense * 5.0 < t.income * 4.0 { assert a[|a| - 1] == GoodSavings; }
  }

  /** The rate test in terms of the amounts. */
  lemma SavingsRate(t: Totals)
    requires t.income > 0.0
    ensures (t.income - t.expense) / t.income * 100.0 < 10.0 <==> t.expense * 10.0 > t.income * 9.0
    ensures (t.income - t.expense) / t.income * 100.0 > 20.0 <==> t.expense * 5.0 < t.income * 4.0
  {
    RateBounds((t.income - t.expense) / t.income * 100.0, t.income, t.expense);
  }

  lemma RateBounds(rate: real, income: real, expense: real)
    requires income > 0.0
    requires rate == (income - expense) / income * 100.0
    ensures rate < 10.0 <==> expense * 10.0 > income * 9.0
    ensures rate > 20.0 <==> expense * 5.0 < income * 4.0
  {
    assert rate * income == (income - expense) * 100.0;
    if rate < 10.0 { MulStrict(rate, 10.0, income); } else { MulMonotone(10.0, rate, income); }
    if 20.0 < rate { MulStrict(20.0, rate, income); } else { MulMonotone(rate, 20.0, income); }
  }

  /** At most one savings message, and none when there is no income or the
      rate is between 10 % and 20 %. */
  lemma SavingsMessagesExclusive(t: Totals, over: seq<(string, real)>)
    requires t.balance == t.income - t.expense
    ensures !(LowSavings in Alerts(t, over) && GoodSavings in Alerts(t, over))
    ensures t.income <= 0.0 ==> LowSavings !in Alerts(t, over) && GoodSavings !in Alerts(t, over)
  {
    LowSavingsMeaning(t, over);
    GoodSavingsMeaning(t, over);
  }

  /** A negative balance on a positive income is also a low savings rate. */
  lemma CriticalImpliesLowSavings(t: Totals, over: seq<(string, real)>)
    requires t.balance == t.income - t.expense && t.income > 0.0
    requires CriticalBalance in Alerts(t, over)
    ensures LowSavings in Alerts(t, over)
  {
    CriticalIffNegativeBalance(t, over);
    LowSavingsMeaning(t, over);
  }

  /** The exceeded-categories alert appears exactly when the month has a
      budget and some category's spend is over its positive budget; it
      lists those categories. */
  lemma ExceededAlertMeaning(t: Totals, expenses: seq<Record>, mb: map<string, real>)
    requires Keyed(expenses, ByCategory)
    ensures (exists a :: a in Alerts(t, MonthOverages(expenses, mb)) && a.ExceededCategories?)
            <==> mb != map[] && exists c :: c in Taxonomy.Categories && SpentOn(expenses, c) > BudgetOf(mb, c) > 0.0
  {
    var over := MonthOverages(expenses, mb);
    var alerts := Alerts(t, over);
    if mb != map[] && exists c :: c in Taxonomy.Categories && SpentOn(expenses, c) > BudgetOf(mb, c) > 0.0 {
      var c :| c in Taxonomy.Categories && SpentOn(expenses, c) > BudgetOf(mb, c) > 0.0;
      assert (c, SpentOn(expenses, c) - BudgetOf(mb, c)) in over;
      assert ExceededCategories(over) in alerts;
    }
    if exists a :: a in alerts && a.ExceededCategories? {
      assert over != [];
      assert over[0] in over;
      var (c, o) := over[0];
      assert c in Taxonomy.Categories && SpentOn(expenses, c) > BudgetOf(mb, c) > 0.0;
    }
  }

  /** A March with one salary of 1000 and a rent of 1200 against a housing
      budget of 1000: balance -200, housing 120 % used and 200 over, and
      the critical, exceeded and low-savings alerts in that order. */
  lemma MarchExample(incomes: seq<Record>, expenses: seq<Record>, budgets: map<string, map<string, real>>)
    requires incomes == [Income(1000.0, "Salario", "2025-03-01")]
    requires expenses == [Expense(1200.0, "Alquiler", "Vivienda", "Hipoteca/Alquiler", "Transferencia", "2025-03-05")]
    requires budgets == map["2025-03" := map["Vivienda" := 1000.0]]
    ensures Summarize(incomes, expenses, Month("2025-03")) == Totals(1000.0, 1200.0, -200.0)
    ensures AnalysisRow(Selected(expenses, Month("2025-03")), BudgetFor(budgets, Month("2025-03")), "Vivienda")
            == CategoryRow("Vivienda", 1000.0, 1200.0, -200.0, 120.0, Exceeded)
    ensures ReportAlerts(incomes, expenses, budgets, Month("2025-03"))
            == [CriticalBalance, ExceededCategories([("Vivienda", 200.0)]), LowSavings]
  {
    var filter := Month("2025-03");
    MarchSelection(incomes, expenses, filter);
    assert BudgetFor(budgets, filter) == map["Vivienda" := 1000.0];
    var mb := map["Vivienda" := 1000.0];
    MarchRow(expenses, mb);
    MarchOverages(expenses, mb);
    assert mb != map[] by { assert "Vivienda" in mb; }
    MarchAlerts(Summarize(incomes, expenses, filter), expenses, mb);
  }

  lemma MarchSelection(incomes: seq<Record>, expenses: seq<Record>, filter: MonthFilter)
    requires incomes == [Income(1000.0, "Salario", "2025-03-01")]
    requires expenses == [Expense(1200.0, "Alquiler", "Vivienda", "Hipoteca/Alquiler", "Transferencia", "2025-03-05")]
    requires filter == Month("2025-03")
    ensures Selected(incomes, filter) == incomes && Selected(expenses, filter) == expenses
    ensures Summarize(incomes, expenses, filter) == Totals(1000.0, 1200.0, -200.0)
  {
    assert MonthOf(incomes[0].date) == "2025-03" && MonthOf(expenses[0].date) == "2025-03";
    assert incomes[1..] == [] && expenses[1..] == [];
    assert Where(incomes, ByMonth, "2025-03") == [incomes[0]] + Where(incomes[1..], ByMonth, "2025-03");
    assert Where(expenses, ByMonth, "2025-03") == [expenses[0]] + Where(expenses[1..], ByMonth, "2025-03");
    assert Sum(incomes) == 1000.0 + Sum(incomes[1..]);
    assert Sum(expenses) == 1200.0 + Sum(expenses[1..]);
  }

  lemma MarchRow(expenses: seq<Record>, mb: map<string, real>)
    requires expenses == [Expense(1200.0, "Alquiler", "Vivienda", "Hipoteca/Alquiler", "Transferencia", "2025-03-05")]
    requires mb == map["Vivienda" := 1000.0]
    ensures AnalysisRow(expenses, mb, "Vivienda") == CategoryRow("Vivienda", 1000.0, 1200.0, -200.0, 120.0, Exceeded)
  {
    assert SpentOn(expenses, "Vivienda") == 1200.0 by {
      assert expenses[1..] == [];
      assert Where(expenses, ByCategory, "Vivienda") == [expenses[0]] + Where(expenses[1..], ByCategory, "Vivienda");
      assert Sum(expenses) == 1200.0 + Sum(expenses[1..]);
    }
  }

  lemma MarchAlerts(t: Totals, expenses: seq<Record>, mb: map<string, real>)
    requires Keyed(expenses, ByCategory)
    requires t == Totals(1000.0, 1200.0, -200.0)
    requires mb != map[]
    requires Overages(expenses, mb, Taxonomy.Categories) == [("Vivienda", 200.0)]
    ensures Alerts(t, MonthOverages(expenses, mb))
            == [CriticalBalance, ExceededCategories([("Vivienda", 200.0)]), LowSavings]
  {
    CriticalExceededLow(t, [("Vivienda", 200.0)]);
  }

  /** A month spent beyond its income, with some category over budget, shows
      all three warnings in the report's order. */
  lemma CriticalExceededLow(t: Totals, over: seq<(string, real)>)
    requires t.income > 0.0 && t.balance == t.income - t.expense && t.balance < 0.0
    requires over != []
    ensures Alerts(t, over) == [CriticalBalance, ExceededCategories(over), LowSavings]
  {
    SavingsRate(t);
  }

  lemma MarchOverages(expenses: seq<Record>, mb: map<string, real>)
    requires expenses == [Expense(1200.0, "Alquiler", "Vivienda", "Hipoteca/Alquiler", "Transferencia", "2025-03-05")]
    requires mb == map["Vivienda" := 1000.0]
    ensures Overages(expenses, mb, Taxonomy.Categories) == [("Vivienda", 200.0)]
  {
    Taxonomy.CategoriesMatchTable();
    assert Taxonomy.Categories[1] == "Vivienda";
    MarchRow(expenses, mb);
    forall c | c in Taxonomy.Categories && c != "Vivienda" ensures BudgetOf(mb, c) == 0.0 { }
    OneCategoryOver(expenses, mb, Taxonomy.Categories, "Vivienda");
  }

  /** When one category of `cats` is over its positive budget and every
      other one is not, the overage list is that category alone, with the
      amount it is over. */
  lemma {:induction false} OneCategoryOver(expenses: seq<Record>, mb: map<string, real>,
                                           cats: seq<string>, cat: string)
    requires Keyed(expenses, ByCategory)
    requires Distinct(cats) && cat in cats
    requires SpentOn(expenses, cat) > BudgetOf(mb, cat) > 0.0
    requires forall c | c in cats && c != cat :: !(SpentOn(expenses, c) > BudgetOf(mb, c) > 0.0)
    ensures Overages(expenses, mb, cats) == [(cat, SpentOn(expenses, cat) - BudgetOf(mb, cat))]
  {
    if cats[0] == cat {
      forall c | c in cats[1..] ensures !(SpentOn(expenses, c) > BudgetOf(mb, c) > 0.0) {
        var j :| 0 <= j < |cats[1..]| && cats[1..][j] == c;
        assert cats[j + 1] == c && c in cats;
      }
    } else {
      var i :| 0 <= i < |cats| && cats[i] == cat;
      assert cats[1..][i - 1] == cat;
      assert Distinct(cats[1..]) by {
        forall i, j | 0 <= i < j < |cats[1..]| ensures cats[1..][i] != cats[1..][j] {
          assert cats[1..][i] == cats[i + 1] && cats[1..][j] == cats[j + 1];
        }
      }
      OneCategoryOver(expenses, mb, cats[1..], cat);
    }
  }

  // ---------------------------------------------------------------------
  // Arithmetic on the reals used by the percentages

  lemma MulStrict(a: real, b: real, c: real)
    requires c > 0.0 && a < b
    ensures a * c < b * c
  {
  }

  lemma MulMonotone(a: real, b: real, c: real)
    requires c > 0.0 && a <= b
    ensures a * c <= b * c
  {
    if a < b { MulStrict(a, b, c); }
  }

  /** A percentage `p` of a positive `b` that stands for `sp` is over 100
      exactly when `sp` is over `b`. */
  lemma ShareOver(p: real, b: real, sp: real)
    requires b > 0.0 && p * b == sp * 100.0
    ensures p > 100.0 <==> sp > b
  {
    if p > 100.0 {
      MulStrict(100.0, p, b);
    } else {
      MulMonotone(p, 100.0, b);
    }
  }

  lemma MulCancel(a: real, b: real, c: real)
    requires c != 0.0 && a * c == b * c
    ensures a == b
  {
    if a < b && c > 0.0 { MulStrict(a, b, c); }
    if a < b && c < 0.0 { MulStrict(-b, -a, -c); }
    if b < a && c > 0.0 { MulStrict(b, a, c); }
    if b < a && c < 0.0 { MulStrict(-a, -b, -c); }
  }
}
