/** The entities of the finance store and the small predicates every part of
    the engine shares: which payment method is a credit card, which
    transaction is a synthetic card invoice, and first-match lookups, filters
    and sums over the flat collections the store keeps. */
module Ledger {
  import opened Text
  import opened Dates

  datatype Option<T> = None | Some(value: T)

  /** 'Receita' and 'Despesa'. */
  datatype Kind = Income | Expense

  /** 'Pago' (confirmed) and 'Previsão' (projected). */
  datatype Status = Paid | Projected

  datatype Category = Category(id: string, name: string, kind: Kind)

  datatype PaymentMethod = PaymentMethod(id: string, name: string, kind: Kind, linkedAccountId: Option<string>)

  datatype BankAccount = BankAccount(id: string, name: string, initialBalance: real)

  datatype Transaction = Transaction(
    id: string,
    date: CalendarDate,
    description: string,
    categoryId: string,
    bankAccountId: string,
    kind: Kind,
    value: real,
    paymentMethodId: string,
    status: Status,
    notes: Option<string>,
    installments: Option<int>,
    installmentIndex: Option<int>,
    groupId: Option<string>)

  /** The `"${year}-${month}"` keys of the closing-day and bill-payment maps. */
  datatype YearMonth = YearMonth(year: int, month: int)

  datatype RecurringBill = RecurringBill(id: string, name: string, dueDay: int, payments: map<YearMonth, bool>)

  /** The whole local store: one flat collection per persisted key. */
  datatype Store = Store(
    transactions: seq<Transaction>,
    paymentMethods: seq<PaymentMethod>,
    categories: seq<Category>,
    accounts: seq<BankAccount>,
    bills: seq<RecurringBill>,
    closingDays: map<YearMonth, int>)

  /** What the engine reads from its surroundings: today's local date, the
      millisecond clock behind generated ids, and the month label the
      locale formatter would print. */
  datatype Env = Env(today: CalendarDate, clock: int, monthLabel: int -> string)

  function YearMonthOf(d: Date): YearMonth {
    YearMonth(d.year, d.month)
  }

  const AutoInvoicePrefix: string := "AUTO_INVOICE_"

  /** A synthetic invoice is recognised by the prefix of its notes. */
  predicate IsAutoInvoice(t: Transaction) {
    t.notes.Some? && StartsWith(t.notes.value, AutoInvoicePrefix)
  }

  predicate NotAutoInvoice(t: Transaction) {
    !IsAutoInvoice(t)
  }

  /** The card test on a method's name: lower-cased, it contains
      "cartão de crédito" or "crédito". */
  predicate IsCreditCardName(name: string) {
    Contains(Lower(name), "cartão de crédito") || Contains(Lower(name), "crédito")
  }

  /** The first alternative of the card test adds nothing: a name passes
      exactly when its lower-cased form contains "crédito". */
  lemma CreditCardNameTest(name: string)
    ensures IsCreditCardName(name) <==> Contains(Lower(name), "crédito")
  {
    if Contains(Lower(name), "cartão de crédito") {
      assert "cartão de crédito" == "cartão de " + "crédito";
      ContainsSuffixOfInfix(Lower(name), "cartão de ", "crédito");
    }
  }

  /** Index of the first element satisfying `p`, or -1 (`findIndex`). */
  function FirstIndex<T>(s: seq<T>, p: T -> bool): (i: int)
    ensures -1 <= i < |s|
    ensures i >= 0 ==> p(s[i])
    ensures forall j :: 0 <= j < |s| && (i < 0 || j < i) ==> !p(s[j])
  {
    if s == [] then -1
    else if p(s[0]) then 0
    else
      var k := FirstIndex(s[1..], p);
      if k < 0 then -1 else k + 1
  }

  /** The first element satisfying `p` (`find`). */
  function Find<T>(s: seq<T>, p: T -> bool): (r: Option<T>)
    ensures r.Some? ==> r.value in s && p(r.value)
    ensures r.Some? ==> exists i :: 0 <= i < |s| && s[i] == r.value && forall j :: 0 <= j < i ==> !p(s[j])
    ensures r.None? <==> forall j :: 0 <= j < |s| ==> !p(s[j])
  {
    var i := FirstIndex(s, p);
    if i < 0 then None else Some(s[i])
  }

  /** The elements satisfying `p`, in order (`filter`). */
  function Filter<T>(s: seq<T>, p: T -> bool): (r: seq<T>)
    ensures |r| <= |s|
    ensures forall j :: 0 <= j < |r| ==> p(r[j])
  {
    if s == [] then []
    else (if p(s[0]) then [s[0]] else []) + Filter(s[1..], p)
  }

  /** The filter keeps exactly the elements `p` accepts. */
  lemma {:induction false} FilterMembers<T>(s: seq<T>, p: T -> bool)
    ensures forall x :: x in Filter(s, p) <==> x in s && p(x)
  {
    if s != [] {
      FilterMembers(s[1..], p);
      assert s == [s[0]] + s[1..];
    }
  }

  predicate Exists<T>(s: seq<T>, p: T -> bool) {
    exists j :: 0 <= j < |s| && p(s[j])
  }

  lemma {:induction false} FilterConcat<T>(a: seq<T>, b: seq<T>, p: T -> bool)
    ensures Filter(a + b, p) == Filter(a, p) + Filter(b, p)
  {
    if a == [] {
      assert a + b == b;
    } else {
      assert (a + b)[0] == a[0];
      assert (a + b)[1..] == a[1..] + b;
      FilterConcat(a[1..], b, p);
    }
  }

  /** Filtering by a weaker predicate first does not change a filter. */
  lemma {:induction false} FilterNarrow<T>(s: seq<T>, p: T -> bool, q: T -> bool)
    requires forall x :: q(x) ==> p(x)
    ensures Filter(Filter(s, p), q) == Filter(s, q)
  {
    if s != [] {
      FilterNarrow(s[1..], p, q);
      FilterConcat(if p(s[0]) then [s[0]] else [], Filter(s[1..], p), q);
    }
  }

  lemma {:induction false} FilterAllOrNone<T>(s: seq<T>, p: T -> bool)
    ensures (forall j :: 0 <= j < |s| ==> p(s[j])) ==> Filter(s, p) == s
    ensures (forall j :: 0 <= j < |s| ==> !p(s[j])) ==> Filter(s, p) == []
  {
    if s != [] {
      FilterAllOrNone(s[1..], p);
    }
  }

  /** Splitting a sequence around position `i`. */
  lemma FilterAround<T>(s: seq<T>, i: int, p: T -> bool)
    requires 0 <= i < |s|
    ensures Filter(s, p) == Filter(s[..i], p) + Filter([s[i]], p) + Filter(s[i + 1..], p)
  {
    var a, b := s[..i], s[i + 1..];
    assert s == (a + [s[i]]) + b;
    FilterConcat(a + [s[i]], b, p);
    FilterConcat(a, [s[i]], p);
  }

  /** Replacing an element `p` rejects by another one it rejects leaves the filter alone. */
  lemma FilterIgnoresReplaced<T>(s: seq<T>, i: int, x: T, p: T -> bool)
    requires 0 <= i < |s| && !p(s[i]) && !p(x)
    ensures Filter(s[i := x], p) == Filter(s, p)
  {
    FilterAround(s, i, p);
    FilterAround(s[i := x], i, p);
    assert s[i := x][..i] == s[..i];
    assert s[i := x][i + 1..] == s[i + 1..];
  }

  /** Removing an element `p` rejects leaves the filter alone. */
  lemma FilterIgnoresRemoved<T>(s: seq<T>, i: int, p: T -> bool)
    requires 0 <= i < |s| && !p(s[i])
    ensures Filter(s[..i] + s[i + 1..], p) == Filter(s, p)
  {
    var a, b := s[..i], s[i + 1..];
    var fa, fb := Filter(a, p), Filter(b, p);
    assert s == a + [s[i]] + b;
    calc {
      Filter(s, p);
      { FilterConcat(a + [s[i]], b, p); }
      Filter(a + [s[i]], p) + fb;
      { FilterConcat(a, [s[i]], p); FilterSingleton(s[i], p); }
      fa + [] + fb;
      { assert fa + [] == fa; }
      fa + fb;
      { FilterConcat(a, b, p); }
      Filter(a + b, p);
    }
  }

  lemma FilterSingleton<T>(x: T, p: T -> bool)
    ensures Filter([x], p) == if p(x) then [x] else []
  {
    assert [x][1..] == [];
  }

  /** Appending one element extends the filter by it exactly when `p` accepts it. */
  lemma FilterAppend<T>(s: seq<T>, x: T, p: T -> bool)
    ensures Filter(s + [x], p) == Filter(s, p) + (if p(x) then [x] else [])
  {
    FilterConcat(s, [x], p);
  }

  /** Two filters commute. */
  lemma {:induction false} FilterCommute<T>(s: seq<T>, p: T -> bool, q: T -> bool)
    ensures Filter(Filter(s, p), q) == Filter(Filter(s, q), p)
  {
    if s != [] {
      FilterCommute(s[1..], p, q);
      FilterConcat(if p(s[0]) then [s[0]] else [], Filter(s[1..], p), q);
      FilterConcat(if q(s[0]) then [s[0]] else [], Filter(s[1..], q), p);
    }
  }

  /** Filtering first can only shorten a second filter. */
  lemma FilterShrinks<T>(s: seq<T>, p: T -> bool, q: T -> bool)
    ensures |Filter(Filter(s, p), q)| <= |Filter(s, q)|
  {
    FilterCommute(s, p, q);
  }

  /** Sum of the values of the transactions satisfying `p` (`filter` then `reduce`). */
  function SumWhere(ts: seq<Transaction>, p: Transaction -> bool): real {
    if ts == [] then 0.0
    else (if p(ts[0]) then ts[0].value else 0.0) + SumWhere(ts[1..], p)
  }

  function SumValues(ts: seq<Transaction>): real {
    if ts == [] then 0.0 else ts[0].value + SumValues(ts[1..])
  }

  lemma {:induction false} SumWhereConcat(a: seq<Transaction>, b: seq<Transaction>, p: Transaction -> bool)
    ensures SumWhere(a + b, p) == SumWhere(a, p) + SumWhere(b, p)
  {
    if a == [] {
      assert a + b == b;
    } else {
      assert (a + b)[0] == a[0];
      assert (a + b)[1..] == a[1..] + b;
      SumWhereConcat(a[1..], b, p);
    }
  }

  /** Summing under `p` is summing the values of the filtered sequence. */
  lemma {:induction false} SumWhereIsSumOfFilter(ts: seq<Transaction>, p: Transaction -> bool)
    ensures SumWhere(ts, p) == SumValues(Filter(ts, p))
  {
    if ts != [] {
      SumWhereIsSumOfFilter(ts[1..], p);
      var head := if p(ts[0]) then [ts[0]] else [];
      assert Filter(ts, p) == head + Filter(ts[1..], p);
      if p(ts[0]) {
        assert (head + Filter(ts[1..], p))[0] == ts[0];
        assert (head + Filter(ts[1..], p))[1..] == Filter(ts[1..], p);
      } else {
        assert head + Filter(ts[1..], p) == Filter(ts[1..], p);
      }
    }
  }

  /** A sum under `q` only sees the elements a weaker `p` keeps. */
  lemma {:induction false} SumWhereThroughFilter(ts: seq<Transaction>, p: Transaction -> bool, q: Transaction -> bool)
    requires forall x :: q(x) ==> p(x)
    ensures SumWhere(Filter(ts, p), q) == SumWhere(ts, q)
  {
    if ts != [] {
      SumWhereThroughFilter(ts[1..], p, q);
      var head := if p(ts[0]) then [ts[0]] else [];
      SumWhereConcat(head, Filter(ts[1..], p), q);
    }
  }

  /** Two transaction lists that agree on their `p`-part agree on every sum under a stronger predicate. */
  lemma SumWhereAgrees(ts: seq<Transaction>, us: seq<Transaction>, p: Transaction -> bool, q: Transaction -> bool)
    requires forall x :: q(x) ==> p(x)
    requires Filter(ts, p) == Filter(us, p)
    ensures SumWhere(ts, q) == SumWhere(us, q)
  {
    SumWhereThroughFilter(ts, p, q);
    SumWhereThroughFilter(us, p, q);
  }

  /** A sum splits by any second predicate. */
  lemma {:induction false} SumWhereSplit(ts: seq<Transaction>, p: Transaction -> bool, q: Transaction -> bool)
    ensures SumWhere(ts, p) == SumWhere(ts, x => p(x) && q(x)) + SumWhere(ts, x => p(x) && !q(x))
  {
    if ts != [] {
      SumWhereSplit(ts[1..], p, q);
    }
  }

  /** Summing under `q` over the `p`-filtered list is summing under "`p` and `q`". */
  lemma {:induction false} SumWhereOfFilter(ts: seq<Transaction>, p: Transaction -> bool, q: Transaction -> bool,
                                            pq: Transaction -> bool)
    requires forall x :: pq(x) == (p(x) && q(x))
    ensures SumWhere(Filter(ts, p), q) == SumWhere(ts, pq)
  {
    if ts != [] {
      SumWhereOfFilter(ts[1..], p, q, pq);
      SumWhereConcat(if p(ts[0]) then [ts[0]] else [], Filter(ts[1..], p), q);
    }
  }

  /** A sum under the union of two disjoint predicates is the sum of the two sums. */
  lemma {:induction false} SumWhereDisjointUnion(ts: seq<Transaction>, p: Transaction -> bool, q: Transaction -> bool,
                                                 pq: Transaction -> bool)
    requires forall x :: pq(x) == (p(x) || q(x))
    requires forall x :: !(p(x) && q(x))
    ensures SumWhere(ts, pq) == SumWhere(ts, p) + SumWhere(ts, q)
  {
    if ts != [] {
      SumWhereDisjointUnion(ts[1..], p, q, pq);
    }
  }

  /** The payment method a transaction names, if the store knows it. */
  function FindPaymentMethod(pms: seq<PaymentMethod>, id: string): (r: Option<PaymentMethod>)
    ensures r.Some? ==> r.value in pms && r.value.id == id
    ensures r.Some? ==> exists i :: 0 <= i < |pms| && pms[i] == r.value && forall j :: 0 <= j < i ==> pms[j].id != id
    ensures r.None? <==> forall j :: 0 <= j < |pms| ==> pms[j].id != id
  {
    Find(pms, (pm: PaymentMethod) => pm.id == id)
  }

  function FindCategory(categories: seq<Category>, id: string): (r: Option<Category>)
    ensures r.Some? ==> r.value in categories && r.value.id == id
    ensures r.Some? ==> exists i :: 0 <= i < |categories| && categories[i] == r.value &&
                                    forall j :: 0 <= j < i ==> categories[j].id != id
    ensures r.None? <==> forall j :: 0 <= j < |categories| ==> categories[j].id != id
  {
    Find(categories, (c: Category) => c.id == id)
  }

  /** `isCreditCardPM`: the first method with that id exists and its name passes the card test. */
  predicate IsCreditCardMethod(pms: seq<PaymentMethod>, id: string) {
    var pm := FindPaymentMethod(pms, id);
    pm.Some? && IsCreditCardName(pm.value.name)
  }

  /** `!!linkedBankAccountId`: a link is present and not the empty string. */
  predicate HasLinkedAccount(pm: PaymentMethod) {
    pm.linkedAccountId.Some? && pm.linkedAccountId.value != ""
  }
}
