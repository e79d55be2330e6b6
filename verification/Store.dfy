/** The dashboard's mutable state and the form actions that change it: the
    records document (`ingresos`, `gastos`) and the budget map
    (`"YYYY-MM"` -> category -> amount). Writing either document to disk is
    not part of this model. Each action on the records ends where the source
    calls `guardar_datos`. The two budget actions change the budget map as it
    stands once "Guardar presupuesto" has stored them with
    `guardar_presupuesto`. */
module Store {
  import opened Text
  import opened Records
  import Taxonomy

  /** How a form action ended. `InvalidInput`: amount not positive or
      description blank (new records); `BlankDescription`: an edit with a
      blank description; `IndexOutOfRange`: the list lookup would raise. */
  datatype Outcome = Done | InvalidInput | BlankDescription | IndexOutOfRange

  /** The "Tipo de datos" choice of the delete-by-month form. */
  datatype Scope = Everything | IncomesOnly | ExpensesOnly {
    predicate CoversIncomes() { !ExpensesOnly? }
    predicate CoversExpenses() { !IncomesOnly? }
  }

  /** A record as the forms write it: positive amount, stripped non-blank
      description, `"YYYY-MM-DD"` date. */
  predicate WellFormed(x: Record) {
    x.amount > 0.0 && Trimmed(x.description) && WellFormedDate(x.date)
  }

  /** The amount an edit stores. The text field is parsed to `input`; an
      unparseable or empty text counts as 0. A positive input is taken,
      anything else keeps the record's current amount. */
  function EditedAmount(input: real, current: real): (a: real)
    ensures a == current || (a == input && a > 0.0)
    ensures input > 0.0 ==> a == input
    ensures current > 0.0 ==> a > 0.0
  {
    if input <= 0.0 then current else input
  }

  /** A month's budget once every category in `cats` has an entry: amounts
      already set are kept and the missing categories get 0. */
  function WithCategories(mb: map<string, real>, cats: seq<string>): (r: map<string, real>)
    ensures forall c :: c in r <==> c in mb || c in cats
    ensures forall c | c in mb :: r[c] == mb[c]
    ensures forall c | c in r && c !in mb :: r[c] == 0.0
  {
    map c | c in mb.Keys + (set c | c in cats) :: if c in mb then mb[c] else 0.0
  }

  lemma WithCategoriesStep(mb: map<string, real>, cats: seq<string>, c: string)
    ensures WithCategories(mb, cats + [c]) ==
      var r := WithCategories(mb, cats); if c in r then r else r[c := 0.0]
  {
    var r := WithCategories(mb, cats);
    var r' := WithCategories(mb, cats + [c]);
    assert forall d :: d in cats + [c] <==> d in cats || d == c;
    assert r'.Keys == r.Keys + {c};
  }

  /** The budget map after the "Presupuesto Mensual" page has prepared
      `month`: the month exists and holds every category. */
  function WithMonthFilled(b: map<string, map<string, real>>, month: string): (r: map<string, map<string, real>>)
    ensures r.Keys == b.Keys + {month}
    ensures forall m | m in b && m != month :: r[m] == b[m]
    ensures forall c | c in Taxonomy.Categories :: c in r[month]
    ensures month in b ==> forall c | c in b[month] :: c in r[month] && r[month][c] == b[month][c]
    ensures forall c | c in r[month] && (month !in b || c !in b[month]) :: r[month][c] == 0.0
    ensures r[month].Keys == (if month in b then b[month].Keys else {}) + set c | c in Taxonomy.Categories
  {
    b[month := WithCategories(if month in b then b[month] else map[], Taxonomy.Categories)]
  }

  /** Preparing a month twice gives the same map as preparing it once. */
  lemma FillIdempotent(b: map<string, map<string, real>>, month: string)
    ensures WithMonthFilled(WithMonthFilled(b, month), month) == WithMonthFilled(b, month)
  {
    var once := WithMonthFilled(b, month);
    var twice := WithMonthFilled(once, month);
    assert twice[month] == once[month];
  }

  predicate NonNegativeBudgets(b: map<string, map<string, real>>) {
    forall m | m in b :: forall c | c in b[m] :: b[m][c] >= 0.0
  }

  /** An entry of the expense list (`expense`) or of the income list as the
      forms write it; an expense also carries a valid classification. */
  predicate Good(x: Record, expense: bool) {
    x.Expense? == expense && WellFormed(x)
    && (x.Expense? ==> Taxonomy.Classified(x.category, x.subcategory, x.paymentMethod))
  }

  predicate AllGood(s: seq<Record>, expense: bool) {
    forall x | x in s :: Good(x, expense)
  }

  lemma AppendKeepsGood(s: seq<Record>, e: Record, expense: bool)
    requires AllGood(s, expense) && Good(e, expense)
    ensures AllGood(s + [e], expense)
  {
  }

  lemma UpdateKeepsGood(s: seq<Record>, i: nat, e: Record, expense: bool)
    requires i < |s|
    requires AllGood(s, expense) && Good(e, expense)
    ensures AllGood(s[i := e], expense)
  {
    UpdateKeepsAll(s, i, e, x => Good(x, expense));
  }

  lemma UpdateKeepsAll<T>(s: seq<T>, i: nat, e: T, P: T -> bool)
    requires i < |s|
    requires P(e) && forall x | x in s :: P(x)
    ensures forall x | x in s[i := e] :: P(x)
  {
    forall x | x in s[i := e] ensures P(x) {
      var j :| 0 <= j < |s| && s[i := e][j] == x;
      if j != i { assert x == s[j]; }
    }
  }

  lemma PositiveAt(s: seq<Record>, i: nat, expense: bool)
    requires AllGood(s, expense) && i < |s|
    ensures s[i].amount > 0.0
  {
    assert s[i] in s;
  }

  lemma RemoveKeepsGood(s: seq<Record>, t: seq<Record>, expense: bool)
    requires AllGood(s, expense)
    requires forall x | x in t :: x in s
    ensures AllGood(t, expense)
  {
  }

  /** A new entry built from form input is good once the input passed the
      form's checks. */
  lemma EnteredIsGood(x: Record, expense: bool, description: string)
    requires x.Expense? == expense && x.amount > 0.0 && WellFormedDate(x.date)
    requires !IsBlank(description) && x.description == Strip(description)
    requires x.Expense? ==> Taxonomy.Classified(x.category, x.subcategory, x.paymentMethod)
    ensures Good(x, expense)
  {
    TrimmedIffStripped(description);
  }

  class Store {
    var incomes: seq<Record>
    var expenses: seq<Record>
    var budgets: map<string, map<string, real>>

    /** What the forms guarantee of everything they write. */
    ghost predicate Valid()
      reads this
    {
      AllGood(incomes, false) && AllGood(expenses, true) && NonNegativeBudgets(budgets)
    }

    /** Start-up when neither document exists yet (`cargar_datos` and
        `cargar_presupuesto` fall back to empty structures). */
    constructor ()
      ensures Valid()
      ensures incomes == [] && expenses == [] && budgets == map[]
    {
      incomes, expenses, budgets := [], [], map[];
    }

    /** Make sure `month` has an entry for every category before it is shown;
        the result is the budget as saved when the page is then stored. */
    method FillMonth(month: string)
      modifies this
      ensures budgets == WithMonthFilled(old(budgets), month)
      ensures incomes == old(incomes) && expenses == old(expenses)
      ensures old(Valid()) ==> Valid()
    {
      var mb := if month in budgets then budgets[month] else map[];
      ghost var start := mb;
      assert Taxonomy.Categories[..0] == [];
      var i := 0;
      while i < |Taxonomy.Categories|
        invariant 0 <= i <= |Taxonomy.Categories|
        invariant mb == WithCategories(start, Taxonomy.Categories[..i])
        invariant budgets == old(budgets) && incomes == old(incomes) && expenses == old(expenses)
      {
        var cat := Taxonomy.Categories[i];
        assert Taxonomy.Categories[..i + 1] == Taxonomy.Categories[..i] + [cat];
        WithCategoriesStep(start, Taxonomy.Categories[..i], cat);
        if cat !in mb {
          mb := mb[cat := 0.0];
        }
        i := i + 1;
      }
      assert Taxonomy.Categories[..i] == Taxonomy.Categories;
      budgets := budgets[month := mb];
    }

    /** Store the amount typed for one category of a prepared month (the
        number input refuses values below 0), as saved by "Guardar
        presupuesto". */
    method SetCategoryBudget(month: string, cat: string, amount: real)
      requires month in budgets
      requires amount >= 0.0
      modifies this
      ensures budgets == old(budgets)[month := old(budgets)[month][cat := amount]]
      ensures incomes == old(incomes) && expenses == old(expenses)
      ensures old(Valid()) ==> Valid()
    {
      budgets := budgets[month := budgets[month][cat := amount]];
    }

    /** "Registrar ingreso": append when the amount is positive and the
        description is not blank; otherwise change nothing. */
    method AddIncome(amount: real, description: string, date: string) returns (outcome: Outcome)
      requires WellFormedDate(date)
      modifies this
      ensures outcome == if amount <= 0.0 || IsBlank(description) then InvalidInput else Done
      ensures incomes == if outcome == Done then old(incomes) + [Income(amount, Strip(description), date)]
                         else old(incomes)
      ensures expenses == old(expenses) && budgets == old(budgets)
      ensures old(Valid()) ==> Valid()
    {
      if amount <= 0.0 || IsBlank(description) {
        outcome := InvalidInput;
      } else {
        var entry := Income(amount, Strip(description), date);
        EnteredIsGood(entry, false, description);
        if Valid() { AppendKeepsGood(incomes, entry, false); }
        incomes := incomes + [entry];
        outcome := Done;
      }
    }

    /** "Registrar gasto": as AddIncome, for an expense whose category,
        subcategory and payment method come from the form's selectors. */
    method AddExpense(amount: real, description: string, category: string, subcategory: string,
                      paymentMethod: string, date: string) returns (outcome: Outcome)
      requires Taxonomy.Classified(category, subcategory, paymentMethod)
      requires WellFormedDate(date)
      modifies this
      ensures outcome == if amount <= 0.0 || IsBlank(description) then InvalidInput else Done
      ensures expenses ==
        if outcome == Done
        then old(expenses) + [Expense(amount, Strip(description), category, subcategory, paymentMethod, date)]
        else old(expenses)
      ensures incomes == old(incomes) && budgets == old(budgets)
      ensures old(Valid()) ==> Valid()
    {
      if amount <= 0.0 || IsBlank(description) {
        outcome := InvalidInput;
      } else {
        var entry := Expense(amount, Strip(description), category, subcategory, paymentMethod, date);
        EnteredIsGood(entry, true, description);
        if Valid() { AppendKeepsGood(expenses, entry, true); }
        expenses := expenses + [entry];
        outcome := Done;
      }
    }

    /** "Actualizar Ingreso": replace income `i`; a non-positive amount keeps
        the old one, a blank description refuses the edit. */
    method EditIncome(i: nat, amount: real, description: string, date: string) returns (outcome: Outcome)
      requires WellFormedDate(date)
      modifies this
      ensures outcome == if i >= |old(incomes)| then IndexOutOfRange
                         else if IsBlank(description) then BlankDescription
                         else Done
      ensures incomes ==
        if outcome == Done
        then old(incomes)[i := Income(EditedAmount(amount, old(incomes)[i].amount), Strip(description), date)]
        else old(incomes)
      ensures expenses == old(expenses) && budgets == old(budgets)
      ensures old(Valid()) ==> Valid()
    {
      if i >= |incomes| {
        outcome := IndexOutOfRange;
      } else if IsBlank(description) {
        outcome := BlankDescription;
      } else {
        var entry := Income(EditedAmount(amount, incomes[i].amount), Strip(description), date);
        if Valid() {
          PositiveAt(incomes, i, false);
          EnteredIsGood(entry, false, description);
          UpdateKeepsGood(incomes, i, entry, false);
        }
        incomes := incomes[i := entry];
        outcome := Done;
      }
    }

    /** "Actualizar Gasto": as EditIncome, for expense `i`. */
    method EditExpense(i: nat, amount: real, description: string, category: string, subcategory: string,
                       paymentMethod: string, date: string) returns (outcome: Outcome)
      requires Taxonomy.Classified(category, subcategory, paymentMethod)
      requires WellFormedDate(date)
      modifies this
      ensures outcome == if i >= |old(expenses)| then IndexOutOfRange
                         else if IsBlank(description) then BlankDescription
                         else Done
      ensures expenses ==
        if outcome == Done
        then old(expenses)[i := Expense(EditedAmount(amount, old(expenses)[i].amount), Strip(description),
                                        category, subcategory, paymentMethod, date)]
        else old(expenses)
      ensures incomes == old(incomes) && budgets == old(budgets)
      ensures old(Valid()) ==> Valid()
    {
      if i >= |expenses| {
        outcome := IndexOutOfRange;
      } else if IsBlank(description) {
        outcome := BlankDescription;
      } else {
        var entry := Expense(EditedAmount(amount, expenses[i].amount), Strip(description),
                             category, subcategory, paymentMethod, date);
        if Valid() {
          PositiveAt(expenses, i, true);
          EnteredIsGood(entry, true, description);
          UpdateKeepsGood(expenses, i, entry, true);
        }
        expenses := expenses[i := entry];
        outcome := Done;
      }
    }

    /** "Eliminar" next to income `i`: `pop(i)`. */
    method DeleteIncome(i: nat) returns (outcome: Outcome)
      modifies this
      ensures outcome == if i < |old(incomes)| then Done else IndexOutOfRange
      ensures incomes == if outcome == Done then old(incomes)[..i] + old(incomes)[i + 1..] else old(incomes)
      ensures expenses == old(expenses) && budgets == old(budgets)
      ensures old(Valid()) ==> Valid()
    {
      if i < |incomes| {
        var rest := incomes[..i] + incomes[i + 1..];
        if Valid() {
          assert forall x | x in rest :: x in incomes;
          RemoveKeepsGood(incomes, rest, false);
        }
        incomes := rest;
        outcome := Done;
      } else {
        outcome := IndexOutOfRange;
      }
    }

    /** "Eliminar" next to expense `i`: `pop(i)`. */
    method DeleteExpense(i: nat) returns (outcome: Outcome)
      modifies this
      ensures outcome == if i < |old(expenses)| then Done else IndexOutOfRange
      ensures expenses == if outcome == Done then old(expenses)[..i] + old(expenses)[i + 1..] else old(expenses)
      ensures incomes == old(incomes) && budgets == old(budgets)
      ensures old(Valid()) ==> Valid()
    {
      if i < |expenses| {
        var rest := expenses[..i] + expenses[i + 1..];
        if Valid() {
          assert forall x | x in rest :: x in expenses;
          RemoveKeepsGood(expenses, rest, true);
        }
        expenses := rest;
        outcome := Done;
      } else {
        outcome := IndexOutOfRange;
      }
    }

    /** "Eliminar registros del mes": drop the records of `month` from the
        lists `scope` names, and report how many went from each. */
    method DeleteMonth(month: string, scope: Scope) returns (removedIncomes: nat, removedExpenses: nat)
      modifies this
      ensures incomes == if scope.CoversIncomes() then Without(old(incomes), ByMonth, month) else old(incomes)
      ensures expenses == if scope.CoversExpenses() then Without(old(expenses), ByMonth, month) else old(expenses)
      ensures removedIncomes == if scope.CoversIncomes() then |Where(old(incomes), ByMonth, month)| else 0
      ensures removedExpenses == if scope.CoversExpenses() then |Where(old(expenses), ByMonth, month)| else 0
      ensures budgets == old(budgets)
      ensures old(Valid()) ==> Valid()
    {
      removedIncomes, removedExpenses := 0, 0;
      var incomesOfMonth := Where(incomes, ByMonth, month);
      var expensesOfMonth := Where(expenses, ByMonth, month);
      ghost var wasValid := Valid();
      if scope.CoversIncomes() && incomesOfMonth != [] {
        var rest := Without(incomes, ByMonth, month);
        if wasValid { RemoveKeepsGood(incomes, rest, false); }
        incomes := rest;
        removedIncomes := |incomesOfMonth|;
      } else if scope.CoversIncomes() {
        WithoutNothing(incomes, ByMonth, month);
      }
      if scope.CoversExpenses() && expensesOfMonth != [] {
        var rest := Without(expenses, ByMonth, month);
        if wasValid { RemoveKeepsGood(expenses, rest, true); }
        expenses := rest;
        removedExpenses := |expensesOfMonth|;
      } else if scope.CoversExpenses() {
        WithoutNothing(expenses, ByMonth, month);
      }
    }

    /** "Reiniciar Sistema Completo" (`limpiar_todos_los_registros`): both
        documents become empty. */
    method Reset()
      modifies this
      ensures incomes == [] && expenses == [] && budgets == map[]
      ensures Valid()
    {
      incomes, expenses, budgets := [], [], map[];
    }
  }
}
