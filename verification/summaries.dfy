/** The read-side projections: the balance of every bank account, the income
    and expense of one billing month, and the expense of one billing month
    grouped by category and ordered by total. */
module Summaries {
  import opened Dates
  import opened Ledger
  import opened Invoices

  // ---------------------------------------------------------------------------
  // Bank account balances
  // ---------------------------------------------------------------------------

  datatype AccountSummary = AccountSummary(account: BankAccount, confirmedBalance: real, currentBalance: real)

  function OnAccount(id: string): Transaction -> bool {
    (t: Transaction) => t.bankAccountId == id
  }

  /** Confirmed ('Pago') entries of one kind. */
  function PaidOfKind(k: Kind): Transaction -> bool {
    (t: Transaction) => t.kind == k && t.status == Paid
  }

  /** Entries of one kind the current balance counts: all but projected invoices. */
  function CountedOfKind(k: Kind): Transaction -> bool {
    (t: Transaction) => t.kind == k && !(IsAutoInvoice(t) && t.status == Projected)
  }

  function PaidOn(id: string, k: Kind): Transaction -> bool {
    (t: Transaction) => t.bankAccountId == id && t.kind == k && t.status == Paid
  }

  function CountedOn(id: string, k: Kind): Transaction -> bool {
    (t: Transaction) => t.bankAccountId == id && t.kind == k && !(IsAutoInvoice(t) && t.status == Projected)
  }

  /** Projected entries the user made themselves (not invoices). */
  function ProjectedUserOn(id: string, k: Kind): Transaction -> bool {
    (t: Transaction) => t.bankAccountId == id && t.kind == k && t.status == Projected && !IsAutoInvoice(t)
  }

  /** One element of `getBankAccountSummaries`: the account's own entries are
      filtered first; confirmed balance counts paid income and expense, the
      current balance counts everything except projected synthetic invoices. */
  function AccountSummaryOf(a: BankAccount, txs: seq<Transaction>): (r: AccountSummary)
    ensures r.account == a
    ensures r.confirmedBalance == a.initialBalance + SumWhere(txs, PaidOn(a.id, Income)) - SumWhere(txs, PaidOn(a.id, Expense))
    ensures r.currentBalance == a.initialBalance + SumWhere(txs, CountedOn(a.id, Income)) - SumWhere(txs, CountedOn(a.id, Expense))
  {
    var own := Filter(txs, OnAccount(a.id));
    SumWhereOfFilter(txs, OnAccount(a.id), PaidOfKind(Income), PaidOn(a.id, Income));
    SumWhereOfFilter(txs, OnAccount(a.id), PaidOfKind(Expense), PaidOn(a.id, Expense));
    SumWhereOfFilter(txs, OnAccount(a.id), CountedOfKind(Income), CountedOn(a.id, Income));
    SumWhereOfFilter(txs, OnAccount(a.id), CountedOfKind(Expense), CountedOn(a.id, Expense));
    AccountSummary(a,
      a.initialBalance + SumWhere(own, PaidOfKind(Income)) - SumWhere(own, PaidOfKind(Expense)),
      a.initialBalance + SumWhere(own, CountedOfKind(Income)) - SumWhere(own, CountedOfKind(Expense)))
  }

  /** `getBankAccountSummaries`: one summary per account, in account order. */
  function BankAccountSummaries(s: Store): (r: seq<AccountSummary>)
    ensures |r| == |s.accounts|
    ensures forall i :: 0 <= i < |r| ==> r[i] == AccountSummaryOf(s.accounts[i], s.transactions)
  {
    seq(|s.accounts|, i requires 0 <= i < |s.accounts| => AccountSummaryOf(s.accounts[i], s.transactions))
  }

  /** What separates the current balance from the confirmed one is exactly the
      user's own projected income minus their projected expense: projected
      invoices count toward neither. */
  lemma BalanceGap(a: BankAccount, txs: seq<Transaction>)
    ensures var r := AccountSummaryOf(a, txs);
            r.currentBalance - r.confirmedBalance
            == SumWhere(txs, ProjectedUserOn(a.id, Income)) - SumWhere(txs, ProjectedUserOn(a.id, Expense))
  {
    SumWhereDisjointUnion(txs, PaidOn(a.id, Income), ProjectedUserOn(a.id, Income), CountedOn(a.id, Income));
    SumWhereDisjointUnion(txs, PaidOn(a.id, Expense), ProjectedUserOn(a.id, Expense), CountedOn(a.id, Expense));
  }

  /** A projected invoice, wherever it sits in the list, moves no balance. */
  lemma ProjectedInvoiceMovesNoBalance(a: BankAccount, xs: seq<Transaction>, inv: Transaction, ys: seq<Transaction>)
    requires IsAutoInvoice(inv) && inv.status == Projected
    ensures AccountSummaryOf(a, xs + [inv] + ys) == AccountSummaryOf(a, xs + ys)
  {
    SumWhereSkips(xs, inv, ys, PaidOn(a.id, Income));
    SumWhereSkips(xs, inv, ys, PaidOn(a.id, Expense));
    SumWhereSkips(xs, inv, ys, CountedOn(a.id, Income));
    SumWhereSkips(xs, inv, ys, CountedOn(a.id, Expense));
  }

  lemma SumWhereSkips(xs: seq<Transaction>, x: Transaction, ys: seq<Transaction>, p: Transaction -> bool)
    requires !p(x)
    ensures SumWhere(xs + [x] + ys, p) == SumWhere(xs + ys, p)
  {
    SumWhereConcat(xs + [x], ys, p);
    SumWhereConcat(xs, [x], p);
    SumWhereConcat(xs, ys, p);
    assert [x][1..] == [];
  }

  // ---------------------------------------------------------------------------
  // Monthly summary
  // ---------------------------------------------------------------------------

  datatype MonthlySummary = MonthlySummary(
    month: int, year: int,
    totalIncome: real, confirmedIncome: real,
    totalExpense: real, confirmedExpense: real,
    balance: real, confirmedBalance: real)

  /** A user entry whose effective date falls in the month. */
  function InMonth(pms: seq<PaymentMethod>, closingDays: map<YearMonth, int>, month: int, year: int): Transaction -> bool {
    (t: Transaction) => BilledIn(pms, closingDays, t, month, year) && !IsAutoInvoice(t)
  }

  function OfKind(k: Kind): Transaction -> bool {
    (t: Transaction) => t.kind == k
  }

  function InMonthOfKind(pms: seq<PaymentMethod>, closingDays: map<YearMonth, int>, month: int, year: int, k: Kind): Transaction -> bool {
    (t: Transaction) => BilledIn(pms, closingDays, t, month, year) && !IsAutoInvoice(t) && t.kind == k
  }

  function InMonthPaidOfKind(pms: seq<PaymentMethod>, closingDays: map<YearMonth, int>, month: int, year: int, k: Kind): Transaction -> bool {
    (t: Transaction) => BilledIn(pms, closingDays, t, month, year) && !IsAutoInvoice(t) && t.kind == k && t.status == Paid
  }

  function InMonthProjectedOfKind(pms: seq<PaymentMethod>, closingDays: map<YearMonth, int>, month: int, year: int, k: Kind): Transaction -> bool {
    (t: Transaction) => BilledIn(pms, closingDays, t, month, year) && !IsAutoInvoice(t) && t.kind == k && t.status == Projected
  }

  /** `getMonthlySummary(month, year)`: user entries (never invoices) whose
      effective date falls in the month, so a card purchase counts in its
      billing month and is not counted a second time through its invoice. */
  function MonthlySummaryOf(s: Store, month: int, year: int): (r: MonthlySummary)
    ensures r.month == month && r.year == year
    ensures r.totalIncome == SumWhere(s.transactions, InMonthOfKind(s.paymentMethods, s.closingDays, month, year, Income))
    ensures r.totalExpense == SumWhere(s.transactions, InMonthOfKind(s.paymentMethods, s.closingDays, month, year, Expense))
    ensures r.confirmedIncome == SumWhere(s.transactions, InMonthPaidOfKind(s.paymentMethods, s.closingDays, month, year, Income))
    ensures r.confirmedExpense == SumWhere(s.transactions, InMonthPaidOfKind(s.paymentMethods, s.closingDays, month, year, Expense))
    ensures r.balance == r.totalIncome - r.totalExpense
    ensures r.confirmedBalance == r.confirmedIncome - r.confirmedExpense
  {
    var pms, cd := s.paymentMethods, s.closingDays;
    var ts := Filter(s.transactions, InMonth(pms, cd, month, year));
    SumWhereOfFilter(s.transactions, InMonth(pms, cd, month, year), OfKind(Income), InMonthOfKind(pms, cd, month, year, Income));
    SumWhereOfFilter(s.transactions, InMonth(pms, cd, month, year), OfKind(Expense), InMonthOfKind(pms, cd, month, year, Expense));
    SumWhereOfFilter(s.transactions, InMonth(pms, cd, month, year), PaidOfKind(Income), InMonthPaidOfKind(pms, cd, month, year, Income));
    SumWhereOfFilter(s.transactions, InMonth(pms, cd, month, year), PaidOfKind(Expense), InMonthPaidOfKind(pms, cd, month, year, Expense));
    var totalIncome := SumWhere(ts, OfKind(Income));
    var confirmedIncome := SumWhere(ts, PaidOfKind(Income));
    var totalExpense := SumWhere(ts, OfKind(Expense));
    var confirmedExpense := SumWhere(ts, PaidOfKind(Expense));
    MonthlySummary(month, year, totalIncome, confirmedIncome, totalExpense, confirmedExpense,
                   totalIncome - totalExpense, confirmedIncome - confirmedExpense)
  }

  /** The month's totals split into their confirmed and projected parts. */
  lemma MonthlyTotalsSplit(s: Store, month: int, year: int)
    ensures var r := MonthlySummaryOf(s, month, year);
            r.totalIncome == r.confirmedIncome +
              SumWhere(s.transactions, InMonthProjectedOfKind(s.paymentMethods, s.closingDays, month, year, Income)) &&
            r.totalExpense == r.confirmedExpense +
              SumWhere(s.transactions, InMonthProjectedOfKind(s.paymentMethods, s.closingDays, month, year, Expense))
  {
    var pms, cd := s.paymentMethods, s.closingDays;
    SumWhereDisjointUnion(s.transactions, InMonthPaidOfKind(pms, cd, month, year, Income),
                          InMonthProjectedOfKind(pms, cd, month, year, Income), InMonthOfKind(pms, cd, month, year, Income));
    SumWhereDisjointUnion(s.transactions, InMonthPaidOfKind(pms, cd, month, year, Expense),
                          InMonthProjectedOfKind(pms, cd, month, year, Expense), InMonthOfKind(pms, cd, month, year, Expense));
  }

  /** Two stores with the same user entries, methods and closing days have the
      same monthly summary: invoices never enter it. */
  lemma MonthlySummaryOnlySeesUserEntries(s: Store, u: Store, month: int, year: int)
    requires Filter(s.transactions, NotAutoInvoice) == Filter(u.transactions, NotAutoInvoice)
    requires s.paymentMethods == u.paymentMethods && s.closingDays == u.closingDays
    ensures MonthlySummaryOf(s, month, year) == MonthlySummaryOf(u, month, year)
  {
    var pms, cd := s.paymentMethods, s.closingDays;
    SumWhereAgrees(s.transactions, u.transactions, NotAutoInvoice, InMonthOfKind(pms, cd, month, year, Income));
    SumWhereAgrees(s.transactions, u.transactions, NotAutoInvoice, InMonthOfKind(pms, cd, month, year, Expense));
    SumWhereAgrees(s.transactions, u.transactions, NotAutoInvoice, InMonthPaidOfKind(pms, cd, month, year, Income));
    SumWhereAgrees(s.transactions, u.transactions, NotAutoInvoice, InMonthPaidOfKind(pms, cd, month, year, Expense));
  }

  /** Synchronising the invoices never changes any monthly summary: card
      purchases are not counted twice. */
  lemma MonthlySummaryUnchangedBySync(s: Store, env: Env, month: int, year: int)
    ensures MonthlySummaryOf(SyncAllLinkedInvoices(s, env), month, year) == MonthlySummaryOf(s, month, year)
  {
    var window := BillingWindow(env.today);
    var jobs := Jobs(LinkedCards(s.paymentMethods), window);
    assert ValidJobs(jobs);
    SyncJobsKeepsUserEntries(s, jobs, env);
    MonthlySummaryOnlySeesUserEntries(SyncAllLinkedInvoices(s, env), s, month, year);
  }

  // ---------------------------------------------------------------------------
  // Category summary
  // ---------------------------------------------------------------------------

  const OtherCategoryName: string := "Outros"

  /** One category's running totals, keyed by category id. */
  datatype Bucket = Bucket(categoryId: string, name: string, total: real, confirmed: real)

  datatype CategoryRow = CategoryRow(categoryName: string, total: real, confirmedTotal: real, percentage: real)

  /** A user expense whose effective date falls in the month. */
  function ExpenseInMonth(pms: seq<PaymentMethod>, closingDays: map<YearMonth, int>, month: int, year: int): Transaction -> bool {
    (t: Transaction) => BilledIn(pms, closingDays, t, month, year) && t.kind == Expense && !IsAutoInvoice(t)
  }

  /** The bucket name: the category's name, or "Outros" when it is unknown or empty. */
  function BucketName(categories: seq<Category>, id: string): string {
    match FindCategory(categories, id)
    case Some(c) => if c.name != "" then c.name else OtherCategoryName
    case None => OtherCategoryName
  }

  function InCategory(id: string): Transaction -> bool {
    (t: Transaction) => t.categoryId == id
  }

  function PaidInCategory(id: string): Transaction -> bool {
    (t: Transaction) => t.categoryId == id && t.status == Paid
  }

  function BucketIndex(buckets: seq<Bucket>, id: string): (i: int)
    ensures -1 <= i < |buckets|
    ensures i >= 0 ==> buckets[i].categoryId == id
    ensures i < 0 ==> forall k :: 0 <= k < |buckets| ==> buckets[k].categoryId != id
  {
    FirstIndex(buckets, (b: Bucket) => b.categoryId == id)
  }

  /** One step of the `forEach`: add `t` to its category's bucket, opening the
      bucket at the end, named after the category, when the category is new.
      Every other bucket is untouched. */
  function AddToBuckets(buckets: seq<Bucket>, categories: seq<Category>, t: Transaction): (r: seq<Bucket>)
    ensures |r| == if BucketIndex(buckets, t.categoryId) >= 0 then |buckets| else |buckets| + 1
    ensures forall k :: 0 <= k < |buckets| ==> r[k].categoryId == buckets[k].categoryId && r[k].name == buckets[k].name
    ensures forall k :: 0 <= k < |buckets| && buckets[k].categoryId != t.categoryId ==> r[k] == buckets[k]
    ensures BucketIndex(buckets, t.categoryId) < 0 ==>
              r[|buckets|] == Bucket(t.categoryId, BucketName(categories, t.categoryId), t.value,
                                     if t.status == Paid then t.value else 0.0)
  {
    var paid := if t.status == Paid then t.value else 0.0;
    var i := BucketIndex(buckets, t.categoryId);
    if i >= 0 then
      buckets[i := buckets[i].(total := buckets[i].total + t.value, confirmed := buckets[i].confirmed + paid)]
    else
      buckets + [Bucket(t.categoryId, BucketName(categories, t.categoryId), t.value, paid)]
  }

  /** Buckets after adding the expenses of `ts`, in order, to `buckets`. */
  function AddAll(buckets: seq<Bucket>, categories: seq<Category>, ts: seq<Transaction>): seq<Bucket>
    decreases |ts|
  {
    if ts == [] then buckets
    else AddAll(AddToBuckets(buckets, categories, ts[0]), categories, ts[1..])
  }

  /** At most one bucket per category. */
  predicate DistinctIds(buckets: seq<Bucket>) {
    forall i, j :: 0 <= i < j < |buckets| ==> buckets[i].categoryId != buckets[j].categoryId
  }

  /** Each bucket holds its category's total and confirmed total over `done`. */
  predicate TotalsMatch(buckets: seq<Bucket>, done: seq<Transaction>) {
    forall k :: 0 <= k < |buckets| ==>
      buckets[k].total == SumWhere(done, InCategory(buckets[k].categoryId)) &&
      buckets[k].confirmed == SumWhere(done, PaidInCategory(buckets[k].categoryId))
  }

  predicate NamesMatch(buckets: seq<Bucket>, categories: seq<Category>) {
    forall k :: 0 <= k < |buckets| ==> buckets[k].name == BucketName(categories, buckets[k].categoryId)
  }

  /** Every category met in `done` has a bucket. */
  predicate CoversIds(buckets: seq<Bucket>, done: seq<Transaction>) {
    forall j :: 0 <= j < |done| ==> BucketIndex(buckets, done[j].categoryId) >= 0
  }

  /** Every bucket's category was met in `done`. */
  predicate OnlyIds(buckets: seq<Bucket>, done: seq<Transaction>) {
    forall k :: 0 <= k < |buckets| ==> FirstIndex(done, InCategory(buckets[k].categoryId)) >= 0
  }

  /** The buckets describe the processed expenses `done`: one bucket per
      category met, each holding its name and that category's totals. */
  predicate BucketsOf(buckets: seq<Bucket>, categories: seq<Category>, done: seq<Transaction>) {
    DistinctIds(buckets) && TotalsMatch(buckets, done) && NamesMatch(buckets, categories) &&
    CoversIds(buckets, done) && OnlyIds(buckets, done)
  }

  /** Sum of one field over a list. */
  function SumBy<T>(xs: seq<T>, f: T -> real): real {
    if xs == [] then 0.0 else f(xs[0]) + SumBy(xs[1..], f)
  }

  lemma {:induction false} SumByConcat<T>(a: seq<T>, b: seq<T>, f: T -> real)
    ensures SumBy(a + b, f) == SumBy(a, f) + SumBy(b, f)
  {
    if a == [] {
      assert a + b == b;
    } else {
      assert (a + b)[1..] == a[1..] + b;
      SumByConcat(a[1..], b, f);
    }
  }

  lemma {:induction false} SumByUpdate<T>(xs: seq<T>, i: int, x: T, f: T -> real)
    requires 0 <= i < |xs|
    ensures SumBy(xs[i := x], f) == SumBy(xs, f) - f(xs[i]) + f(x)
  {
    if i == 0 {
      assert xs[i := x][1..] == xs[1..];
    } else {
      assert xs[i := x][1..] == xs[1..][i - 1 := x];
      SumByUpdate(xs[1..], i - 1, x, f);
    }
  }

  function BucketTotal(b: Bucket): real {
    b.total
  }

  lemma AddKeepsDistinctIds(buckets: seq<Bucket>, categories: seq<Category>, t: Transaction)
    requires DistinctIds(buckets)
    ensures DistinctIds(AddToBuckets(buckets, categories, t))
  {
  }

  lemma AddKeepsNames(buckets: seq<Bucket>, categories: seq<Category>, t: Transaction)
    requires NamesMatch(buckets, categories)
    ensures NamesMatch(AddToBuckets(buckets, categories, t), categories)
  {
  }

  lemma AddKeepsCovers(buckets: seq<Bucket>, categories: seq<Category>, done: seq<Transaction>, t: Transaction)
    requires CoversIds(buckets, done)
    ensures CoversIds(AddToBuckets(buckets, categories, t), done + [t])
  {
    var r := AddToBuckets(buckets, categories, t);
    forall j | 0 <= j < |done + [t]|
      ensures BucketIndex(r, (done + [t])[j].categoryId) >= 0
    {
      var id := (done + [t])[j].categoryId;
      var i := if j < |done| then BucketIndex(buckets, id) else BucketIndex(buckets, t.categoryId);
      var k := if i >= 0 then i else |buckets|;
      assert r[k].categoryId == id;
    }
  }

  lemma AddKeepsOnly(buckets: seq<Bucket>, categories: seq<Category>, done: seq<Transaction>, t: Transaction)
    requires OnlyIds(buckets, done)
    ensures OnlyIds(AddToBuckets(buckets, categories, t), done + [t])
  {
    var r := AddToBuckets(buckets, categories, t);
    forall k | 0 <= k < |r|
      ensures FirstIndex(done + [t], InCategory(r[k].categoryId)) >= 0
    {
      var p := InCategory(r[k].categoryId);
      if k < |buckets| {
        var j := FirstIndex(done, p);
        assert (done + [t])[j] == done[j];
      } else {
        assert (done + [t])[|done|] == t;
      }
    }
  }

  /** A category no processed expense belongs to has zero totals. */
  lemma {:induction false} SumWhereNone(ts: seq<Transaction>, p: Transaction -> bool)
    requires forall j :: 0 <= j < |ts| ==> !p(ts[j])
    ensures SumWhere(ts, p) == 0.0
  {
    if ts != [] {
      SumWhereNone(ts[1..], p);
    }
  }

  lemma AddKeepsTotals(buckets: seq<Bucket>, categories: seq<Category>, done: seq<Transaction>, t: Transaction)
    requires DistinctIds(buckets) && TotalsMatch(buckets, done) && CoversIds(buckets, done)
    ensures TotalsMatch(AddToBuckets(buckets, categories, t), done + [t])
  {
    var r := AddToBuckets(buckets, categories, t);
    var i := BucketIndex(buckets, t.categoryId);
    forall k | 0 <= k < |r|
      ensures r[k].total == SumWhere(done + [t], InCategory(r[k].categoryId))
      ensures r[k].confirmed == SumWhere(done + [t], PaidInCategory(r[k].categoryId))
    {
      var id := r[k].categoryId;
      SumWhereConcat(done, [t], InCategory(id));
      SumWhereConcat(done, [t], PaidInCategory(id));
      assert [t][1..] == [];
      if k == |buckets| {
        SumWhereNone(done, InCategory(id));
        SumWhereNone(done, PaidInCategory(id));
      }
    }
  }

  lemma AddSumsTotals(buckets: seq<Bucket>, categories: seq<Category>, t: Transaction)
    ensures SumBy(AddToBuckets(buckets, categories, t), BucketTotal) == SumBy(buckets, BucketTotal) + t.value
  {
    var r := AddToBuckets(buckets, categories, t);
    var i := BucketIndex(buckets, t.categoryId);
    if i >= 0 {
      SumByUpdate(buckets, i, r[i], BucketTotal);
    } else {
      SumByConcat(buckets, [r[|buckets|]], BucketTotal);
      assert [r[|buckets|]][1..] == [];
    }
  }

  /** One more expense keeps the buckets describing the processed list. */
  lemma AddKeepsBucketsOf(buckets: seq<Bucket>, categories: seq<Category>, done: seq<Transaction>, t: Transaction)
    requires BucketsOf(buckets, categories, done)
    ensures BucketsOf(AddToBuckets(buckets, categories, t), categories, done + [t])
  {
    AddKeepsDistinctIds(buckets, categories, t);
    AddKeepsNames(buckets, categories, t);
    AddKeepsCovers(buckets, categories, done, t);
    AddKeepsOnly(buckets, categories, done, t);
    AddKeepsTotals(buckets, categories, done, t);
  }

  lemma ConcatStep<T>(done: seq<T>, ts: seq<T>)
    requires ts != []
    ensures done + [ts[0]] + ts[1..] == done + ts
  {
    assert ts == [ts[0]] + ts[1..];
  }

  /** The whole `forEach`: the buckets describe every processed expense, and
      their totals add up to the expenses' total. */
  lemma {:induction false} AddAllBuckets(buckets: seq<Bucket>, categories: seq<Category>, done: seq<Transaction>, ts: seq<Transaction>)
    requires BucketsOf(buckets, categories, done)
    ensures BucketsOf(AddAll(buckets, categories, ts), categories, done + ts)
    ensures SumBy(AddAll(buckets, categories, ts), BucketTotal) == SumBy(buckets, BucketTotal) + SumValues(ts)
    decreases |ts|
  {
    if ts == [] {
      assert done + ts == done;
    } else {
      var t := ts[0];
      AddKeepsBucketsOf(buckets, categories, done, t);
      AddSumsTotals(buckets, categories, t);
      AddAllBuckets(AddToBuckets(buckets, categories, t), categories, done + [t], ts[1..]);
      ConcatStep(done, ts);
    }
  }

  /** Stable insertion of a row into a list ordered by decreasing total: it
      goes before the first row whose total is not larger. */
  function InsertRow(x: CategoryRow, rows: seq<CategoryRow>): seq<CategoryRow> {
    if rows == [] || rows[0].total <= x.total then [x] + rows
    else [rows[0]] + InsertRow(x, rows[1..])
  }

  /** The sort of the summary rows: stable, by decreasing total. */
  function SortRows(rows: seq<CategoryRow>): seq<CategoryRow> {
    if rows == [] then [] else InsertRow(rows[0], SortRows(rows[1..]))
  }

  predicate SortedByTotal(rows: seq<CategoryRow>) {
    forall i, j :: 0 <= i < j < |rows| ==> rows[i].total >= rows[j].total
  }

  lemma {:induction false} InsertRowPermutes(x: CategoryRow, rows: seq<CategoryRow>)
    ensures multiset(InsertRow(x, rows)) == multiset(rows) + multiset{x}
  {
    if !(rows == [] || rows[0].total <= x.total) {
      InsertRowPermutes(x, rows[1..]);
      assert rows == [rows[0]] + rows[1..];
    }
  }

  lemma {:induction false} InsertRowSorted(x: CategoryRow, rows: seq<CategoryRow>)
    requires SortedByTotal(rows)
    ensures SortedByTotal(InsertRow(x, rows))
  {
    if !(rows == [] || rows[0].total <= x.total) {
      var tail := InsertRow(x, rows[1..]);
      InsertRowSorted(x, rows[1..]);
      InsertRowPermutes(x, rows[1..]);
      forall j | 0 <= j < |tail|
        ensures rows[0].total >= tail[j].total
      {
        assert tail[j] in multiset(rows[1..]) + multiset{x};
      }
    }
  }

  lemma {:induction false} InsertRowSum(x: CategoryRow, rows: seq<CategoryRow>, f: CategoryRow -> real)
    ensures SumBy(InsertRow(x, rows), f) == f(x) + SumBy(rows, f)
  {
    if rows == [] || rows[0].total <= x.total {
      assert ([x] + rows)[1..] == rows;
    } else {
      InsertRowSum(x, rows[1..], f);
      assert ([rows[0]] + InsertRow(x, rows[1..]))[1..] == InsertRow(x, rows[1..]);
    }
  }

  /** The sort orders by decreasing total. */
  lemma {:induction false} SortRowsSorted(rows: seq<CategoryRow>)
    ensures SortedByTotal(SortRows(rows))
  {
    if rows != [] {
      SortRowsSorted(rows[1..]);
      InsertRowSorted(rows[0], SortRows(rows[1..]));
    }
  }

  /** The sort permutes the rows. */
  lemma {:induction false} SortRowsPermutes(rows: seq<CategoryRow>)
    ensures multiset(SortRows(rows)) == multiset(rows)
  {
    if rows != [] {
      SortRowsPermutes(rows[1..]);
      InsertRowPermutes(rows[0], SortRows(rows[1..]));
      assert rows == [rows[0]] + rows[1..];
    }
  }

  /** The sort keeps every sum over the rows. */
  lemma {:induction false} SortRowsSum(rows: seq<CategoryRow>, f: CategoryRow -> real)
    ensures SumBy(SortRows(rows), f) == SumBy(rows, f)
  {
    if rows != [] {
      SortRowsSum(rows[1..], f);
      InsertRowSum(rows[0], SortRows(rows[1..]), f);
    }
  }

  function Percentage(total: real, grand: real): real {
    if grand > 0.0 then total / grand * 100.0 else 0.0
  }

  function RowOf(b: Bucket, grand: real): CategoryRow {
    CategoryRow(b.name, b.total, b.confirmed, Percentage(b.total, grand))
  }

  function RowTotal(r: CategoryRow): real {
    r.total
  }

  function RowPercentage(r: CategoryRow): real {
    r.percentage
  }

  /** The unsorted rows, bucket by bucket. */
  function RowsOf(buckets: seq<Bucket>, grand: real): (rows: seq<CategoryRow>)
    ensures |rows| == |buckets|
    ensures forall k :: 0 <= k < |rows| ==> rows[k] == RowOf(buckets[k], grand)
  {
    seq(|buckets|, k requires 0 <= k < |buckets| => RowOf(buckets[k], grand))
  }

  lemma {:induction false} RowsOfSums(buckets: seq<Bucket>, grand: real)
    ensures SumBy(RowsOf(buckets, grand), RowTotal) == SumBy(buckets, BucketTotal)
    ensures grand > 0.0 ==> SumBy(RowsOf(buckets, grand), RowPercentage) == SumBy(buckets, BucketTotal) / grand * 100.0
  {
    if buckets != [] {
      RowsOfSums(buckets[1..], grand);
      assert RowsOf(buckets, grand)[1..] == RowsOf(buckets[1..], grand);
    }
  }

  /** The month's user expenses, in store order. */
  function MonthExpenses(s: Store, month: int, year: int): seq<Transaction> {
    Filter(s.transactions, ExpenseInMonth(s.paymentMethods, s.closingDays, month, year))
  }

  /** `getCategorySummary(month, year)`: the month's user expenses grouped by
      category, one row per bucket, ordered by decreasing total. */
  function CategorySummary(s: Store, month: int, year: int): (rows: seq<CategoryRow>)
    ensures SortedByTotal(rows)
    ensures multiset(rows) == multiset(RowsOf(AddAll([], s.categories, MonthExpenses(s, month, year)),
                                              SumValues(MonthExpenses(s, month, year))))
  {
    var ts := MonthExpenses(s, month, year);
    var rows := RowsOf(AddAll([], s.categories, ts), SumValues(ts));
    SortRowsSorted(rows);
    SortRowsPermutes(rows);
    SortRows(rows)
  }

  /** The buckets behind the summary: one per category with expenses in the
      month, in order of first appearance, each holding its name and that
      category's total and confirmed total; they add up to the month's expense. */
  lemma CategoryBuckets(s: Store, month: int, year: int)
    ensures var ts := MonthExpenses(s, month, year);
            var buckets := AddAll([], s.categories, ts);
            BucketsOf(buckets, s.categories, ts) && SumBy(buckets, BucketTotal) == SumValues(ts)
  {
    var ts := MonthExpenses(s, month, year);
    AddAllBuckets([], s.categories, [], ts);
    assert [] + ts == ts;
  }

  /** The rows' totals add up to the month's expense. */
  lemma CategorySummaryTotal(s: Store, month: int, year: int)
    ensures SumBy(CategorySummary(s, month, year), RowTotal) == SumValues(MonthExpenses(s, month, year))
  {
    var ts := MonthExpenses(s, month, year);
    var buckets := AddAll([], s.categories, ts);
    CategoryBuckets(s, month, year);
    RowsOfSums(buckets, SumValues(ts));
    SortRowsSum(RowsOf(buckets, SumValues(ts)), RowTotal);
  }

  /** When the month has a positive expense, the percentages add up to 100. */
  lemma CategorySummaryPercentages(s: Store, month: int, year: int)
    requires SumValues(MonthExpenses(s, month, year)) > 0.0
    ensures SumBy(CategorySummary(s, month, year), RowPercentage) == 100.0
  {
    var ts := MonthExpenses(s, month, year);
    var grand := SumValues(ts);
    var buckets := AddAll([], s.categories, ts);
    CategoryBuckets(s, month, year);
    RowsOfSums(buckets, grand);
    SortRowsSum(RowsOf(buckets, grand), RowPercentage);
    WholeIsHundredPercent(grand);
  }

  lemma WholeIsHundredPercent(x: real)
    requires x > 0.0
    ensures x / x * 100.0 == 100.0
  {
  }
}
