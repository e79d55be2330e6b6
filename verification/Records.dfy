/** Income and expense records (the `ingresos` and `gastos` lists of the
    records document) and the column filters and sums that the dashboard's
    pandas code applies to them. */
module Records {
  import opened Text

  /** One entry of `ingresos` (Income) or of `gastos` (Expense). */
  datatype Record =
    | Income(amount: real, description: string, date: string)
    | Expense(amount: real, description: string, category: string, subcategory: string,
              paymentMethod: string, date: string)

  /** `"YYYY-MM-DD"`, the format the forms write with `strftime("%Y-%m-%d")`. */
  predicate WellFormedDate(d: string) {
    |d| == 10 && d[4] == '-' && d[7] == '-'
    && forall i :: 0 <= i < 10 && i != 4 && i != 7 ==> '0' <= d[i] <= '9'
  }

  /** `"YYYY-MM"`, the month keys of the budget map and of the month filters. */
  predicate WellFormedMonth(m: string) {
    |m| == 7 && m[4] == '-'
    && forall i :: 0 <= i < 7 && i != 4 ==> '0' <= m[i] <= '9'
  }

  /** The month of a date, as `to_period("M")` and `strftime("%Y-%m")` give it. */
  function MonthOf(date: string): (m: string)
    ensures WellFormedDate(date) ==> WellFormedMonth(m) && m == date[..7]
  {
    if |date| >= 7 then date[..7] else date
  }

  /** The column a filter or a group-by reads: "mes" (derived from "fecha"),
      "categoria", "subcategoria" or "medio_pago". */
  datatype Key = ByMonth | ByCategory | BySubcategory | ByPaymentMethod

  /** Every record has a date; only expenses have the other columns. */
  predicate Keyed(s: seq<Record>, k: Key) {
    forall x | x in s :: k.ByMonth? || x.Expense?
  }

  function KeyOf(r: Record, k: Key): string
    requires k.ByMonth? || r.Expense?
  {
    match k
    case ByMonth => MonthOf(r.date)
    case ByCategory => r.category
    case BySubcategory => r.subcategory
    case ByPaymentMethod => r.paymentMethod
  }

  predicate AllPositive(s: seq<Record>) {
    forall x | x in s :: x.amount > 0.0
  }

  /** `df["monto"].sum()`, which is 0 for an empty selection. Positive
      amounts add up to a non-negative total, a positive one when there is
      at least one record. */
  function Sum(s: seq<Record>): (total: real)
    ensures s == [] ==> total == 0.0
    ensures AllPositive(s) ==> total >= 0.0 && (s != [] ==> total > 0.0)
  {
    if s == [] then 0.0
    else
      assert AllPositive(s) ==> s[0].amount > 0.0 && AllPositive(s[1..]) by {
        if AllPositive(s) { assert s[0] in s; }
      }
      s[0].amount + Sum(s[1..])
  }

  /** `df[df[k] == v]`: the records whose column `k` is `v`, in their order. */
  function Where(s: seq<Record>, k: Key, v: string): (r: seq<Record>)
    requires Keyed(s, k)
    ensures |r| <= |s|
    ensures forall x {:trigger x in r} :: x in r <==> x in s && KeyOf(x, k) == v
  {
    if s == [] then []
    else if KeyOf(s[0], k) == v then [s[0]] + Where(s[1..], k, v)
    else Where(s[1..], k, v)
  }

  /** `[x for x in s if x[k] != v]`: the records whose column `k` is not `v`,
      in their order. */
  function Without(s: seq<Record>, k: Key, v: string): (r: seq<Record>)
    requires Keyed(s, k)
    ensures |r| <= |s|
    ensures forall x {:trigger x in r} :: x in r <==> x in s && KeyOf(x, k) != v
  {
    if s == [] then []
    else if KeyOf(s[0], k) != v then [s[0]] + Without(s[1..], k, v)
    else Without(s[1..], k, v)
  }

  /** `a` occurs in `b` in the same order, possibly with gaps. */
  predicate SubsequenceOf<T(==)>(a: seq<T>, b: seq<T>)
    decreases |b|
  {
    if a == [] then true
    else if b == [] then false
    else if a[0] == b[0] then SubsequenceOf(a[1..], b[1..])
    else SubsequenceOf(a, b[1..])
  }

  /** Removing the records with value `v` keeps the rest in their original
      order. */
  lemma {:induction false} WithoutKeepsOrder(s: seq<Record>, k: Key, v: string)
    requires Keyed(s, k)
    ensures SubsequenceOf(Without(s, k, v), s)
  {
    if s != [] {
      WithoutKeepsOrder(s[1..], k, v);
      var r := Without(s, k, v);
      if KeyOf(s[0], k) == v && r != [] {
        assert r[0] in r;
      }
    }
  }

  /** The records removed and the records kept are together exactly the input. */
  lemma {:induction false} WhereAndWithoutPartition(s: seq<Record>, k: Key, v: string)
    requires Keyed(s, k)
    ensures multiset(Where(s, k, v)) + multiset(Without(s, k, v)) == multiset(s)
  {
    if s != [] {
      WhereAndWithoutPartition(s[1..], k, v);
      PartitionStep(s, k, v);
      assert s == [s[0]] + s[1..];
      assert multiset(s) == multiset{s[0]} + multiset(s[1..]);
    }
  }

  /** The first record goes to exactly one side of the split. */
  lemma PartitionStep(s: seq<Record>, k: Key, v: string)
    requires Keyed(s, k) && s != []
    ensures multiset(Where(s, k, v)) + multiset(Without(s, k, v))
            == multiset{s[0]} + multiset(Where(s[1..], k, v)) + multiset(Without(s[1..], k, v))
  {
    if KeyOf(s[0], k) == v {
      assert Where(s, k, v) == [s[0]] + Where(s[1..], k, v);
    } else {
      assert Without(s, k, v) == [s[0]] + Without(s[1..], k, v);
    }
  }

  /** The amounts of a selection and of its complement add up to the whole. */
  lemma {:induction false} SumSplits(s: seq<Record>, k: Key, v: string)
    requires Keyed(s, k)
    ensures Sum(Where(s, k, v)) + Sum(Without(s, k, v)) == Sum(s)
  {
    if s != [] {
      SumSplits(s[1..], k, v);
    }
  }

  /** Filtering out `v` and then selecting `w` is selecting `w`, or nothing
      when `w` is `v`. */
  lemma {:induction false} WhereAfterWithout(s: seq<Record>, k: Key, v: string, w: string)
    requires Keyed(s, k)
    ensures Where(Without(s, k, v), k, w) == if w == v then [] else Where(s, k, w)
  {
    if s != [] {
      WhereAfterWithout(s[1..], k, v, w);
    }
  }

  /** The column's value for each record, in order, repeats included; a
      value occurs in it exactly when its selection is not empty. */
  function Values(s: seq<Record>, k: Key): (vs: seq<string>)
    requires Keyed(s, k)
    ensures |vs| == |s|
    ensures forall v :: v in vs <==> Where(s, k, v) != []
  {
    if s == [] then []
    else
      var t := Values(s[1..], k);
      assert forall v :: Where(s, k, v) != [] <==> KeyOf(s[0], k) == v || Where(s[1..], k, v) != [];
      [KeyOf(s[0], k)] + t
  }

  /** Sum over the values `vs` of the amounts of the records with that value. */
  function SumPerValue(s: seq<Record>, k: Key, vs: seq<string>): real
    requires Keyed(s, k)
  {
    if vs == [] then 0.0 else Sum(Where(s, k, vs[0])) + SumPerValue(s, k, vs[1..])
  }

  lemma {:induction false} SumPerValueWithout(s: seq<Record>, k: Key, v: string, vs: seq<string>)
    requires Keyed(s, k)
    requires v !in vs
    ensures SumPerValue(Without(s, k, v), k, vs) == SumPerValue(s, k, vs)
  {
    if vs != [] {
      WhereAfterWithout(s, k, v, vs[0]);
      SumPerValueWithout(s, k, v, vs[1..]);
    }
  }

  /** Grouping by a column loses no amount: when `vs` lists every value of the
      column once, the per-value sums add up to the total. */
  lemma {:induction false} SumPerValueIsTotal(s: seq<Record>, k: Key, vs: seq<string>)
    requires Keyed(s, k)
    requires Distinct(vs)
    requires forall x | x in s :: KeyOf(x, k) in vs
    ensures SumPerValue(s, k, vs) == Sum(s)
    decreases |vs|
  {
    if s != [] { assert s[0] in s; }
    if vs != [] {
      var rest := Without(s, k, vs[0]);
      assert forall x | x in rest :: KeyOf(x, k) in vs[1..] by {
        forall x | x in rest ensures KeyOf(x, k) in vs[1..] {
          assert KeyOf(x, k) in vs && KeyOf(x, k) != vs[0];
        }
      }
      assert Distinct(vs[1..]) by {
        forall i, j | 0 <= i < j < |vs[1..]| ensures vs[1..][i] != vs[1..][j] {
          assert vs[1..][i] == vs[i + 1] && vs[1..][j] == vs[j + 1];
        }
      }
      assert vs[0] !in vs[1..] by {
        forall j | 0 <= j < |vs[1..]| ensures vs[1..][j] != vs[0] {
          assert vs[1..][j] == vs[j + 1];
        }
      }
      SumPerValueIsTotal(rest, k, vs[1..]);
      SumPerValueWithout(s, k, vs[0], vs[1..]);
      SumSplits(s, k, vs[0]);
    }
  }

  /** Removing a value that does not occur leaves the list as it was. */
  lemma {:induction false} WithoutNothing(s: seq<Record>, k: Key, v: string)
    requires Keyed(s, k)
    requires Where(s, k, v) == []
    ensures Without(s, k, v) == s
  {
    if s != [] {
      assert |Where(s, k, v)| == 0;
      WithoutNothing(s[1..], k, v);
      assert s == [s[0]] + s[1..];
    }
  }
}
