# Presupuesto familiar — a verified model of the dashboard's data logic

`presupuesto_familiar_app.py` is a Streamlit dashboard for a household
budget. It keeps two JSON documents:
- the records document, with an `ingresos` list (incomes) and a `gastos` list (expenses);
- the budget document, `"YYYY-MM"` → category → amount.

Its pages change those documents and compute reports from them. This
project models that logic in Dafny, in five modules:

- `Text` covers the parts of Python's `str` the app relies on:
  - `strip()` and the blank-description test;
  - code-point order;
  - `sorted(set(...))` on month keys and group keys.
- `Taxonomy` holds the fixed `categorias` dictionary (ten categories, each with an ordered list of subcategories) and the three payment methods of the form selectors.
- `Records` defines one `Record` datatype for both lists. It also has the pandas operations the reports use: the month of a date, column filters (`df[df[k] == v]`), the list comprehension that drops a month, sums, and group-by partitions.
- `Store` is a class over the two lists and the budget map. Its methods are the form actions:
  - preparing a budget month, setting a category's amount;
  - adding, editing and deleting an income or an expense;
  - deleting a month;
  - resetting everything.

  Each method states its exact new state. Each also keeps the invariant `Valid()`: every stored record is as the forms write it, and no budget amount is negative.
- `Reports` covers the read-only views of the "Balance" and "Reporte Detallado" pages:
  - the month list and the month filter;
  - totals and balance;
  - the per-category analysis;
  - the per-(category, subcategory) chart;
  - the grouped summaries with their percentages;
  - the alert rules.

Amounts are exact reals. A date is a `"YYYY-MM-DD"` string, and its month is its first seven characters.

Two behaviours of the code are worth noting:
- Preparing a budget month adds every missing category at 0 to a month that already exists, not only to a new month.
- The exceeded-budget alert is one alert listing every exceeded category with its overage, not one alert per category.

Also, the subcategory summary groups by the subcategory name alone. Names that occur under two categories therefore share one row: "Accesorios" and "Mantenimiento". The model keeps that behaviour (`Reports.GroupSummary` with `BySubcategory`).

## Model

| member | source | states |
|---|---|---|
| `Text.Strip` | presupuesto_familiar_app.py:227-232 | the stored description is a slice of the typed text with only whitespace removed at both ends and no whitespace left at either end |
| `Text.BlankIffAllSpace` | presupuesto_familiar_app.py:227 | the form's blank test `strip() == ""` holds exactly when every character is whitespace |
| `Text.StripKeepsTrimmed` | presupuesto_familiar_app.py:232 | text with no whitespace at either end is left as it is by stripping |
| `Text.StripIdempotent` | presupuesto_familiar_app.py:232 | stripping a stored description again changes nothing |
| `Text.TrimmedIffStripped` | presupuesto_familiar_app.py:227-232 | the descriptions the forms can store are exactly the non-blank texts with no whitespace at either end |
| `Text.SortedDistinct` | presupuesto_familiar_app.py:324 | `sorted(set(xs))` is strictly increasing and has exactly the elements of `xs` |
| `Text.SortedListsWithSameElements` | presupuesto_familiar_app.py:409 | two strictly increasing lists with the same elements are equal, so the sorted de-duplicated list is unique |
| `Text.StrictlySortedIsDistinct` | presupuesto_familiar_app.py:899 | a strictly increasing month list names each month once |
| `Taxonomy.Subcategories` | presupuesto_familiar_app.py:282 | `categorias[cat]`: for a category of the table, the list of that table entry; for any other name, no subcategories (so a classified expense always names one of the ten categories) |
| `Taxonomy.SubcategoriesDistinct` | presupuesto_familiar_app.py:105-116 | no category lists a subcategory twice |
| `Taxonomy.CategoriesMatchTable` | presupuesto_familiar_app.py:105-116 | the category list is the dictionary's keys in insertion order, each once |
| `Records.MonthOf` | presupuesto_familiar_app.py:316 | a well-formed date's month is a well-formed `YYYY-MM` key and a prefix of the date |
| `Records.Where` | presupuesto_familiar_app.py:331-332 | a column filter keeps exactly the records whose column has the value, and nothing else |
| `Records.Without` | presupuesto_familiar_app.py:958-959 | the month-delete comprehension keeps exactly the records whose month differs |
| `Records.WithoutKeepsOrder` | presupuesto_familiar_app.py:958-959 | the kept records stay in their original order |
| `Records.WhereAndWithoutPartition` | presupuesto_familiar_app.py:957-966 | removed and kept records together are exactly the old list, as a multiset |
| `Records.SumSplits` | presupuesto_familiar_app.py:335-336 | the month's total plus the rest's total is the whole total |
| `Records.WhereAfterWithout` | presupuesto_familiar_app.py:957-966 | after deleting month `m`, no record of `m` is left and every other month's records are unchanged |
| `Records.Values` | presupuesto_familiar_app.py:324 | the listed values are exactly those whose selection is not empty |
| `Records.SumPerValueWithout` | presupuesto_familiar_app.py:957-966 | per-value sums over values other than `m` do not see the deletion of `m` |
| `Records.SumPerValueIsTotal` | presupuesto_familiar_app.py:507 | grouping by a column whose values are all listed once loses no amount |
| `Records.Sum` | presupuesto_familiar_app.py:432-433 | `["monto"].sum()`: 0 for an empty selection; positive amounts give a non-negative total, a positive one when there is a record |
| `Store.EditedAmount` | presupuesto_familiar_app.py:696-703 | an edit keeps the old amount unless the new one is positive, in which case it takes the new one |
| `Store.WithCategories` | presupuesto_familiar_app.py:150-152 | adding categories keeps every amount already set and gives the missing ones 0 |
| `Store.WithMonthFilled` | presupuesto_familiar_app.py:146-152 | a prepared month holds exactly its old categories plus every taxonomy category, keeps its set amounts, has 0 for the added ones, and other months are unchanged |
| `Store.FillIdempotent` | presupuesto_familiar_app.py:146-152 | preparing a month twice gives the same budget map as preparing it once |
| `Store.EnteredIsGood` | presupuesto_familiar_app.py:226-235 | a record built from input that passed the form's checks satisfies the store invariant |
| `Records.WithoutNothing` | presupuesto_familiar_app.py:957-966 | the guard "the month has records" does not change the result: dropping an absent month leaves the list as it was |
| `Store.Store.constructor` | presupuesto_familiar_app.py:67-83 | with no documents on disk both lists and the budget map start empty, and the invariant holds |
| `Store.Store.FillMonth` | presupuesto_familiar_app.py:146-152 | the in-place fill loop produces exactly `WithMonthFilled` (so the month's keys are its old ones plus the taxonomy's categories) and touches no record |
| `Store.Store.SetCategoryBudget` | presupuesto_familiar_app.py:158-165 | one category of one month gets the typed non-negative amount, and nothing else changes |
| `Store.Store.AddIncome` | presupuesto_familiar_app.py:226-235 | refused iff amount ≤ 0 or description blank; otherwise exactly one income with the stripped description is appended; expenses and budgets untouched |
| `Store.Store.AddExpense` | presupuesto_familiar_app.py:286-298 | the same for an expense with its category, subcategory and payment method |
| `Store.Store.EditIncome` | presupuesto_familiar_app.py:696-727 | out of range: nothing changes; blank description: refused; otherwise only income `i` is replaced, with the fallback amount and stripped description |
| `Store.Store.EditExpense` | presupuesto_familiar_app.py:771-826 | the same for expense `i`, with the new classification |
| `Store.Store.DeleteIncome` | presupuesto_familiar_app.py:859 | exactly element `i` of the incomes is removed; expenses and budgets untouched |
| `Store.Store.DeleteExpense` | presupuesto_familiar_app.py:875 | exactly element `i` of the expenses is removed; incomes and budgets untouched |
| `Store.Store.DeleteMonth` | presupuesto_familiar_app.py:957-966 | the chosen lists keep exactly their records of other months, the other list is untouched, and the reported counts are the month's record counts |
| `Store.Store.Reset` | presupuesto_familiar_app.py:89-99 | both lists and the budget map become empty |
| `Reports.AvailableMonths` | presupuesto_familiar_app.py:324 | the month list is strictly increasing and holds exactly the months of some income or expense |
| `Reports.AvailableMonthsUnique` | presupuesto_familiar_app.py:409 | any strictly increasing list of exactly those months is the month list |
| `Reports.RecordMonthIsAvailable` | presupuesto_familiar_app.py:899 | every record's month is offered |
| `Reports.AvailableMonthsAfterDelete` | presupuesto_familiar_app.py:957-966 | after deleting month `m` everywhere, the months offered are the old ones without `m` |
| `Reports.Selected` | presupuesto_familiar_app.py:422-430 | "Todos los meses" gives back the list itself; a month keeps exactly that month's records, each as often as it occurs: what is kept and what is dropped together make up the whole list as a multiset |
| `Reports.BudgetFor` | presupuesto_familiar_app.py:422-430 | the budget used is the month's budget, or empty for a month without one and for "Todos los meses" |
| `Reports.Summarize` | presupuesto_familiar_app.py:431-435 | balance is income total minus expense total, and an empty selection totals 0 |
| `Reports.AllMonthsIsSumOfMonths` | presupuesto_familiar_app.py:427-433 | the "Todos los meses" totals are the sums of the per-month totals over the month list |
| `Reports.TotalsAfterDelete` | presupuesto_familiar_app.py:331-337 | deleting month `m` zeroes `m`'s totals and leaves every other month's totals as they were |
| `Reports.BudgetTotal` | presupuesto_familiar_app.py:434 | `sum(presupuesto_mes.values())`: 0 for an empty budget, and not negative when every amount is non-negative |
| `Reports.BudgetTotalWithout` | presupuesto_familiar_app.py:434 | the budget total does not depend on the order the entries are summed in |
| `Reports.BudgetTotalAfterSet` | presupuesto_familiar_app.py:434 | setting one category's amount changes the month total by new minus old |
| `Reports.SpentOn` | presupuesto_familiar_app.py:454 | `gasto_cat`: 0 when no selected expense names the category |
| `Reports.SpentOnPositive` | presupuesto_familiar_app.py:454 | with positive amounts, `gasto_cat` is never negative and is above 0 exactly when some selected expense names the category |
| `Reports.AnalysisRow` | presupuesto_familiar_app.py:452-467 | difference + spent = budget; percent·budget = spent·100 when budget > 0, else 0; Excedido iff spent > budget, Dentro iff 0 < spent ≤ budget, Sin gastos otherwise |
| `Reports.ShareOver` | presupuesto_familiar_app.py:457-458 | a percentage of a positive budget is over 100 exactly when the amount it stands for is over the budget |
| `Reports.OverHundredIffExceeded` | presupuesto_familiar_app.py:457-458 | with a positive budget, more than 100 % used is exactly Excedido |
| `Reports.AnalysisRows` | presupuesto_familiar_app.py:453 | one row per listed category, in order |
| `Reports.CategoryAnalysis` | presupuesto_familiar_app.py:449-467 | built iff there are selected expenses and the month's budget is not empty; then one row per taxonomy category in taxonomy order |
| `Reports.NoAnalysisForAllMonths` | presupuesto_familiar_app.py:427-430 | "Todos los meses" never shows the analysis |
| `Reports.AnalysisAccountsForAllSpending` | presupuesto_familiar_app.py:452-456 | the Gastado column adds up to the selection's expense total |
| `Reports.GoodExpensesAreCategorized` | presupuesto_familiar_app.py:281-283 | stored expenses name a taxonomy category and one of its subcategories |
| `Reports.SubcategoryBar` | presupuesto_familiar_app.py:370-372 | a bar's spend is the sum for that category and subcategory, its budget is its category's, and Excedido iff spend > budget |
| `Reports.SubcategoryBars` | presupuesto_familiar_app.py:369-372 | one bar per subcategory of the category, in order, each with that subcategory's spend within the category |
| `Reports.CategoryBars` | presupuesto_familiar_app.py:368-372 | bars for each category's subcategories in taxonomy order, each with its pair's spend and measured against its category's budget |
| `Reports.SubcategoryChart` | presupuesto_familiar_app.py:366-372 | shown iff the month has expenses; every bar is a taxonomy pair whose spend is the month's sum for that category and subcategory, measured against `presupuesto.get(mes, {}).get(cat, 0)` |
| `Reports.CategoryBarsCover` | presupuesto_familiar_app.py:368-372 | the nested loop reaches every subcategory of every listed category: its bar is in the result |
| `Reports.SubcategoryChartCoversTaxonomy` | presupuesto_familiar_app.py:366-372 | a month with expenses shows a bar for every (category, subcategory) pair of the taxonomy |
| `Reports.SubcategoryChartAccountsForAllSpending` | presupuesto_familiar_app.py:367-372 | the bars add up to the month's expense total when every expense is classified |
| `Reports.KeysOf` | presupuesto_familiar_app.py:508 | the key column lists each group's key in table order |
| `Reports.GroupsOf` | presupuesto_familiar_app.py:507 | each group holds the sum of its key's records, and the totals add up to the per-value sums |
| `Reports.GroupTotals` | presupuesto_familiar_app.py:507 | `groupby(k).sum()` has strictly increasing keys, exactly the occurring values, each with its sum |
| `Reports.GroupTotalsAddUp` | presupuesto_familiar_app.py:507-511 | the group totals add up to the selection's total |
| `Reports.PrependDescending` | presupuesto_familiar_app.py:534 | a group not smaller than every later one can head a descending table |
| `Reports.InsertBehind` | presupuesto_familiar_app.py:534 | a group smaller than the head of a descending table goes behind it: the head in front of the insertion into the rest is the insertion into the whole table |
| `Reports.InsertByTotal` | presupuesto_familiar_app.py:534 | inserting into a descending table keeps it descending, adds exactly that group, and adds its total |
| `Reports.SortByTotal` | presupuesto_familiar_app.py:534 | `sort_values(ascending=False)` gives a descending permutation with the same sum |
| `Reports.PermutationKeepsKeysDistinct` | presupuesto_familiar_app.py:530-534 | reordering cannot make a payment method appear twice |
| `Reports.PermutationKeepsKeys` | presupuesto_familiar_app.py:530-534 | reordering keeps the same groups and the same keys |
| `Reports.WithShares` | presupuesto_familiar_app.py:512 | each percentage times the grand total is the group total times 100 |
| `Reports.SumPercentsScaled` | presupuesto_familiar_app.py:511-512 | the percentages sum to the totals' sum over the grand total, times 100 |
| `Reports.SharesAddUpToHundred` | presupuesto_familiar_app.py:511-512 | before rounding, the shares of a table with a non-zero total add up to 100 |
| `Reports.GroupSummary` | presupuesto_familiar_app.py:507-512 | the subcategory and category summaries list each occurring value once, in increasing order, with its sum; each Porcentaje is its total as a share of the selection's total (`percent · total of all == total · 100`), 0 when that total is 0 |
| `Reports.GroupSharesAddUp` | presupuesto_familiar_app.py:559-563 | the shares of a grouped summary of selected expenses add up to 100 |
| `Reports.PaymentSummary` | presupuesto_familiar_app.py:526-538 | each payment method that occurs is listed once with its sum, largest total first; each Porcentaje is its total as a share of the selection's total, 0 when that total is 0 |
| `Reports.RankedGroups` | presupuesto_familiar_app.py:530-534 | ordering the groups by total keeps one group per method with its own sum |
| `Reports.PaymentSharesAddUp` | presupuesto_familiar_app.py:537-538 | the payment-method shares add up to 100 |
| `Reports.SharesKeepGroups` | presupuesto_familiar_app.py:512 | adding the percentage column and dropping it again gives back the table: keys, totals and order are kept |
| `Reports.Overages` | presupuesto_familiar_app.py:626-631 | a category is listed iff spend > budget > 0, with overage spend − budget; the list is empty iff no category qualifies |
| `Reports.Alerts` | presupuesto_familiar_app.py:621-641 | the alert list holds each kind of alert at most once, in the report's order (critical, exceeded categories, one savings message); the exceeded alert appears iff the overage list is not empty, and it carries that list; what each alert means is stated by `Reports.CriticalIffNegativeBalance`, `Reports.LowSavingsMeaning`, `Reports.GoodSavingsMeaning`, `Reports.SavingsMessagesExclusive` and `Reports.ExceededAlertMeaning` |
| `Reports.ReportAlerts` | presupuesto_familiar_app.py:422-430 | the report's alerts for a month filter: critical exactly when the selected expenses exceed the selected incomes, and no exceeded-category alert under "Todos los meses", whose budget is empty |
| `Reports.CriticalIffNegativeBalance` | presupuesto_familiar_app.py:622-623 | the critical alert appears iff the balance is negative |
| `Reports.LowSavingsMeaning` | presupuesto_familiar_app.py:636-639 | the low-savings message appears iff income > 0 and expenses exceed 90 % of it |
| `Reports.GoodSavingsMeaning` | presupuesto_familiar_app.py:636-641 | the good-savings message appears iff income > 0 and expenses are below 80 % of it |
| `Reports.SavingsRate` | presupuesto_familiar_app.py:637-641 | the 10 % and 20 % rate tests restated on the amounts |
| `Reports.RateBounds` | presupuesto_familiar_app.py:637-641 | the same tests on any rate equal to `(income − expense)/income·100` |
| `Reports.SavingsMessagesExclusive` | presupuesto_familiar_app.py:636-641 | at most one savings message, and none without income |
| `Reports.CriticalImpliesLowSavings` | presupuesto_familiar_app.py:622-639 | a negative balance on a positive income also brings the low-savings message |
| `Reports.OveragesNameEachOnce` | presupuesto_familiar_app.py:626-631 | walking a category list without repeats names each exceeded category once |
| `Reports.OveragesFollowCategories` | presupuesto_familiar_app.py:626-631 | the exceeded categories appear in the order of the category list walked |
| `Reports.MonthOverages` | presupuesto_familiar_app.py:624-631 | `if presupuesto_mes:`: no overages without a month budget; otherwise exactly the taxonomy categories whose spend exceeds a positive budget, each named once and in taxonomy order, with spend − budget |
| `Reports.OneCategoryOver` | presupuesto_familiar_app.py:626-631 | when exactly one listed category spends more than its positive budget, the overage list is that category alone, with spend − budget |
| `Reports.ExceededAlertMeaning` | presupuesto_familiar_app.py:625-634 | the exceeded alert appears iff the month's budget is not empty and some category's spend exceeds its positive budget |
| `Reports.MarchExample` | presupuesto_familiar_app.py:449-467 | 1000 income and 1200 housing against a 1000 budget: balance −200; housing 120 %, Excedido; alerts critical, Vivienda 200 over, low savings |
| `Reports.MarchSelection` | presupuesto_familiar_app.py:422-435 | the example's records all fall in 2025-03, giving income 1000, expenses 1200 and balance −200 |
| `Reports.MarchRow` | presupuesto_familiar_app.py:452-467 | the example's housing row: budget 1000, spent 1200, difference −200, 120 % used, Excedido |
| `Reports.MarchOverages` | presupuesto_familiar_app.py:626-631 | only Vivienda is over budget in the example, by 200 |
| `Reports.CriticalExceededLow` | presupuesto_familiar_app.py:621-641 | a negative balance on a positive income with a non-empty overage list gives exactly: critical, the exceeded categories, low savings |
| `Reports.MarchAlerts` | presupuesto_familiar_app.py:621-641 | with the example's totals and overage list the alerts are: critical balance, Vivienda exceeded by 200, low savings, in that order |

## Left out

- The Streamlit user interface is not modelled: widgets, layout, CSS, one-shot messages in `st.session_state`, the clear-form flags and `st.rerun`. It is presentation only.
- The Altair charts and the table formatting strings are left out. The data behind the category and subcategory charts is modelled (`Reports.GroupSummary`, `Reports.SubcategoryChart`).
- The SQLAlchemy and dotenv connection code is left out. The engine it builds is never used.
- Reading and writing the JSON documents is left out:
  - each method that changes the records ends where the source saves the records document;
  - a missing document is modelled by the constructor's empty state;
  - a malformed document is not modelled.
- Parsing the typed amount is left out: removing commas, `float()`, and the `ValueError` path. An amount arrives already parsed, and unparseable or empty text arrives as 0, as the source sets it.
- Records.MonthOf: takes the first seven characters of the date instead of going through `pandas.to_datetime`/`to_period`. The two agree on well-formed `"YYYY-MM-DD"` dates, and the forms only write such dates.
- Rounding (`.round(1)`, `.round(2)`) and the `$:,.2f` formatting are left out. Percentages are exact.
- Reports.WithShares: gives 0 where pandas would give NaN on a zero grand total. The summaries are only shown for a non-empty selection of positive amounts, where the total is positive.
- Reports.SortByTotal: inserts stably, so groups with equal totals keep their key order. The source's `sort_values` uses an unstable quicksort and leaves the order of ties unspecified. The contract only states what both orders share: descending totals and a permutation of the groups.
- Reports.PaymentSummary: the caption listing `unique()` payment methods is not modelled. Its set of methods is that of the table.
- Store.Store.EditExpense: expenses without a `medio_pago` key are not modelled. Such legacy records read as "Efectivo" in the edit form. Every modelled expense carries a payment method.
- Store.Store.EditIncome: the index comes in as a number. Recovering it from the selectbox label text is left out, and so is the confirmation gating of the reset and month-delete buttons.
- Store.Store.FillMonth: the budget page only offers the twelve months of 2025. The method accepts any month key.
- Store.Store.FillMonth: the model treats the budget page's changes as saved. It models "open the month, type the amounts, press Guardar presupuesto". In the source, the fill changes only the in-memory budget, which is written only when that button is pressed (lines 167-168) and re-read on every rerun (line 103). Leaving the page without saving is not captured: a month opened and never saved has no budget in the source's reports, but has one, all at 0, in the model.
- Store.Store.SetCategoryBudget: like the fill, a typed amount is treated as saved. The source keeps it only in memory until "Guardar presupuesto" is pressed.
- Reports.BudgetTotal is a ghost function, because a map's values have no fixed order. Its two lemmas show that the total does not depend on the order.
- Text.IsSpace: lists the whitespace characters Python's `str.isspace` accepts for the code points the forms can receive. No Unicode normalisation is attempted.
