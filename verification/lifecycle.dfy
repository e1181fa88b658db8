/** The write side of the store: saving a transaction (upsert, marking the
    recurring bills of its category as paid, re-synchronising the card's
    invoice), deleting one (alone or with its later installments, releasing
    the bill flag and re-synchronising every invoice), flipping a bill's
    payment flag, and the reference-checked deletes of categories, payment
    methods and bank accounts. */
module Lifecycle {
  import opened Text
  import opened Dates
  import opened Ledger
  import opened Invoices

  function HasId(id: string): Transaction -> bool {
    (t: Transaction) => t.id == id
  }

  /** No two transactions share an id. */
  predicate UniqueIds(txs: seq<Transaction>) {
    forall i, j :: 0 <= i < j < |txs| ==> txs[i].id != txs[j].id
  }

  /** Replace the first transaction with `t`'s id by `t`, or append `t` when
      there is none. Looking `t`'s id up afterwards finds `t`; every entry with
      another id keeps its place; nothing but `t` is added. */
  function Upsert(txs: seq<Transaction>, t: Transaction): (r: seq<Transaction>)
    ensures Find(r, HasId(t.id)) == Some(t)
    ensures |r| == (if Exists(txs, HasId(t.id)) then |txs| else |txs| + 1)
    ensures forall j :: 0 <= j < |txs| && txs[j].id != t.id ==> r[j] == txs[j]
    ensures forall j :: 0 <= j < |r| ==> r[j] == t || (j < |txs| && r[j] == txs[j])
    ensures forall j :: 0 <= j < |txs| && j != FirstIndex(txs, HasId(t.id)) ==> r[j] == txs[j]
  {
    var i := FirstIndex(txs, HasId(t.id));
    if i >= 0 then
      var r := txs[i := t];
      FirstIndexIs(r, HasId(t.id), i);
      r
    else
      var r := txs + [t];
      FirstIndexIs(r, HasId(t.id), |txs|);
      r
  }

  /** The upserted entry is in the list afterwards. */
  lemma UpsertStores(txs: seq<Transaction>, t: Transaction)
    ensures t in Upsert(txs, t)
  {
    var r := Upsert(txs, t);
    assert Find(r, HasId(t.id)) == Some(t);
  }

  /** Upserting keeps ids unique. */
  lemma UpsertKeepsIdsUnique(txs: seq<Transaction>, t: Transaction)
    requires UniqueIds(txs)
    ensures UniqueIds(Upsert(txs, t))
  {
    var r := Upsert(txs, t);
    var k := FirstIndex(txs, HasId(t.id));
    forall i, j | 0 <= i < j < |r|
      ensures r[i].id != r[j].id
    {
      if k >= 0 {
        assert r[i] == (if i == k then t else txs[i]);
        assert r[j] == (if j == k then t else txs[j]);
      }
    }
  }

  /** Two invoices sharing an id, as those of one month a year apart do under
      the source's ids, hold distinct keys. Saving an edit of the second one
      (its payment status flipped, say) overwrites the first: the second's key
      then has two holders and the first's none. */
  lemma SharedIdUpsertOverwrites(a: Transaction, b: Transaction, u: Transaction)
    requires a.id == b.id && u.id == b.id
    requires a.notes.Some? && b.notes.Some? && a.notes != b.notes && u.notes == b.notes
    requires StartsWith(b.notes.value, AutoInvoicePrefix)
    ensures Upsert([a, b], u) == [u, b]
    ensures UniqueInvoiceKeys([a, b])
    ensures Holders(Upsert([a, b], u), b.notes.value) == [u, b]
    ensures Holders(Upsert([a, b], u), a.notes.value) == []
    ensures !UniqueInvoiceKeys(Upsert([a, b], u))
  {
    FirstIndexIs([a, b], HasId(u.id), 0);
    assert Upsert([a, b], u) == [u, b];
    forall key | StartsWith(key, AutoInvoicePrefix)
      ensures |Holders([a, b], key)| <= 1
    {
      HoldersOfPair(a, b, key);
    }
    HoldersOfPair(u, b, b.notes.value);
    HoldersOfPair(u, b, a.notes.value);
  }

  /** Which of two transactions hold a key. */
  lemma HoldersOfPair(x: Transaction, y: Transaction, key: string)
    ensures Holders([x, y], key) == (if x.notes == Some(key) then [x] else []) + (if y.notes == Some(key) then [y] else [])
  {
    assert [x, y][1..] == [y];
    assert [y][1..] == [];
    assert Filter([y], HoldsKey(key)) == (if y.notes == Some(key) then [y] else []) + Filter([], HoldsKey(key));
  }

  /** A bill belongs to a category when the lower-cased names are equal. */
  predicate NamedLike(b: RecurringBill, name: string) {
    Lower(b.name) == Lower(name)
  }

  function NamedLikeAs(name: string): RecurringBill -> bool {
    (b: RecurringBill) => NamedLike(b, name)
  }

  /** Whether a bill is marked paid for a month: an absent entry is unpaid. */
  predicate BillPaid(b: RecurringBill, ym: YearMonth) {
    ym in b.payments && b.payments[ym]
  }

  /** The `bills.forEach` of `saveTransaction`: EVERY bill named like the
      category is marked paid for the month; the others are untouched. */
  function MarkBillsPaid(bills: seq<RecurringBill>, name: string, ym: YearMonth): (r: seq<RecurringBill>)
    ensures |r| == |bills|
    ensures forall j :: 0 <= j < |r| ==> r[j].id == bills[j].id && r[j].name == bills[j].name && r[j].dueDay == bills[j].dueDay
    ensures forall j :: 0 <= j < |r| && NamedLike(bills[j], name) ==> BillPaid(r[j], ym)
    ensures forall j, m :: 0 <= j < |r| && (m != ym || !NamedLike(bills[j], name)) ==>
              (m in r[j].payments <==> m in bills[j].payments) &&
              (m in bills[j].payments ==> r[j].payments[m] == bills[j].payments[m])
  {
    seq(|bills|, j requires 0 <= j < |bills| =>
      if NamedLike(bills[j], name) then bills[j].(payments := bills[j].payments[ym := true]) else bills[j])
  }

  /** The `findIndex` step of `deleteTransaction`: only the FIRST bill named
      like the category is marked unpaid for the month. */
  function ClearFirstBill(bills: seq<RecurringBill>, name: string, ym: YearMonth): (r: seq<RecurringBill>)
    ensures |r| == |bills|
    ensures var i := FirstIndex(bills, NamedLikeAs(name));
            (i < 0 ==> r == bills) &&
            (i >= 0 ==> ym in r[i].payments && !BillPaid(r[i], ym) &&
                        r[i].id == bills[i].id && r[i].name == bills[i].name && r[i].dueDay == bills[i].dueDay &&
                        (forall m :: m != ym ==> (m in r[i].payments <==> m in bills[i].payments)) &&
                        (forall m :: m != ym && m in bills[i].payments ==> r[i].payments[m] == bills[i].payments[m]) &&
                        forall j :: 0 <= j < |r| && j != i ==> r[j] == bills[j])
  {
    var i := FirstIndex(bills, NamedLikeAs(name));
    if i < 0 then bills else bills[i := bills[i].(payments := bills[i].payments[ym := false])]
  }

  /** `saveTransaction`: upsert the entry, mark the bills of its category
      paid for its month, and re-synchronise the invoice of its billing month
      when it is a card purchase; nothing else is touched. */
  function SaveTransaction(s: Store, t: Transaction, env: Env): (r: Store)
    ensures r.paymentMethods == s.paymentMethods && r.categories == s.categories
    ensures r.accounts == s.accounts && r.closingDays == s.closingDays
    ensures Filter(r.transactions, NotAutoInvoice) == Filter(Upsert(s.transactions, t), NotAutoInvoice)
    ensures !IsCreditCardMethod(s.paymentMethods, t.paymentMethodId) ==> r.transactions == Upsert(s.transactions, t)
    ensures IsCreditCardMethod(s.paymentMethods, t.paymentMethodId) ==>
              var e := EffectiveDate(s.paymentMethods, s.closingDays, t);
              forall k :: k != InvoiceNotesKey(t.paymentMethodId, e.month, e.year) ==>
                Holders(r.transactions, k) == Holders(Upsert(s.transactions, t), k)
    ensures t.kind == Expense && FindCategory(s.categories, t.categoryId).Some? ==>
              r.bills == MarkBillsPaid(s.bills, FindCategory(s.categories, t.categoryId).value.name, YearMonthOf(t.date))
    ensures !(t.kind == Expense && FindCategory(s.categories, t.categoryId).Some?) ==> r.bills == s.bills
  {
    var s1 := s.(transactions := Upsert(s.transactions, t));
    var cat := FindCategory(s.categories, t.categoryId);
    var s2 := if t.kind == Expense && cat.Some? then s1.(bills := MarkBillsPaid(s1.bills, cat.value.name, YearMonthOf(t.date))) else s1;
    if IsCreditCardMethod(s.paymentMethods, t.paymentMethodId) then
      var e := EffectiveDate(s.paymentMethods, s.closingDays, t);
      var r := SyncInvoice(s2, t.paymentMethodId, e.month, e.year,
                           InvoiceId(env.clock, t.paymentMethodId, e.month, e.year), env.monthLabel(e.month));
      SyncInvoiceKeepsUserEntries(s2, t.paymentMethodId, e.month, e.year,
                                  InvoiceId(env.clock, t.paymentMethodId, e.month, e.year), env.monthLabel(e.month));
      SyncInvoiceKeepsEveryOtherKey(s2, t.paymentMethodId, e.month, e.year,
                                    InvoiceId(env.clock, t.paymentMethodId, e.month, e.year), env.monthLabel(e.month));
      r
    else s2
  }

  /** A saved transaction is in the store afterwards, unless it is an
      invoice on a card, which the re-synchronisation may replace. */
  lemma SaveTransactionStores(s: Store, t: Transaction, env: Env)
    requires !IsAutoInvoice(t) || !IsCreditCardMethod(s.paymentMethods, t.paymentMethodId)
    ensures t in SaveTransaction(s, t, env).transactions
  {
    var r := SaveTransaction(s, t, env);
    var u := Upsert(s.transactions, t);
    UpsertStores(s.transactions, t);
    if !IsAutoInvoice(t) {
      FilterMembers(u, NotAutoInvoice);
      FilterMembers(r.transactions, NotAutoInvoice);
    }
  }

  /** Saving a purchase on a card with a linked account leaves the invoice of
      its billing month reconciled with the card's purchases. */
  lemma SaveTransactionReconciles(s: Store, t: Transaction, env: Env)
    requires IsCreditCardMethod(s.paymentMethods, t.paymentMethodId)
    requires UniqueInvoiceKeys(s.transactions)
    requires !IsAutoInvoice(t)
    ensures var e := EffectiveDate(s.paymentMethods, s.closingDays, t);
            Reconciled(SaveTransaction(s, t, env), t.paymentMethodId, YearMonthOf(e))
  {
    var e := EffectiveDate(s.paymentMethods, s.closingDays, t);
    var u := Upsert(s.transactions, t);
    var key := InvoiceNotesKey(t.paymentMethodId, e.month, e.year);
    assert |Holders(u, key)| <= 1 by {
      UpsertHoldersBounded(s.transactions, t, key);
    }
    var cat := FindCategory(s.categories, t.categoryId);
    var s1 := s.(transactions := u);
    var s2 := if t.kind == Expense && cat.Some? then s1.(bills := MarkBillsPaid(s1.bills, cat.value.name, YearMonthOf(t.date))) else s1;
    SyncInvoiceReconciles(s2, t.paymentMethodId, e.month, e.year,
                          InvoiceId(env.clock, t.paymentMethodId, e.month, e.year), env.monthLabel(e.month));
  }

  /** Upserting an entry that is not an invoice cannot add a holder of an invoice key. */
  lemma UpsertHoldersBounded(txs: seq<Transaction>, t: Transaction, key: string)
    requires !IsAutoInvoice(t) && StartsWith(key, AutoInvoicePrefix)
    requires |Holders(txs, key)| <= 1
    ensures |Holders(Upsert(txs, t), key)| <= 1
  {
    var r := Upsert(txs, t);
    var i := FirstIndex(txs, HasId(t.id));
    var p := HoldsKey(key);
    assert !p(t);
    if i >= 0 {
      FilterIgnoresReplacedBy(txs, i, t, p);
    } else {
      FilterAppend(txs, t, p);
    }
  }

  /** Overwriting an element by one `p` rejects can only shorten the filter. */
  lemma FilterIgnoresReplacedBy(s: seq<Transaction>, i: int, x: Transaction, p: Transaction -> bool)
    requires 0 <= i < |s| && !p(x)
    ensures |Filter(s[i := x], p)| <= |Filter(s, p)|
  {
    FilterAround(s, i, p);
    FilterAround(s[i := x], i, p);
    FilterSingleton(x, p);
    assert s[i := x][..i] == s[..i];
    assert s[i := x][i + 1..] == s[i + 1..];
  }

  /** `t.installmentIndex || 0`. */
  function IndexOrZero(t: Transaction): int {
    if t.installmentIndex.Some? then t.installmentIndex.value else 0
  }

  /** Whether deleting `t` with "this and the next ones" cascades over its group:
      the group id is a non-empty string and the installment index is present. */
  predicate Cascades(t: Transaction, deleteAllNext: bool) {
    deleteAllNext && t.groupId.Some? && t.groupId.value != "" && t.installmentIndex.Some?
  }

  /** An entry the cascade from `t` removes: same group, index at least `t`'s. */
  predicate LaterInstallment(t: Transaction, x: Transaction) {
    x.groupId == t.groupId && IndexOrZero(x) >= IndexOrZero(t)
  }

  /** The `filter` that decides which entries survive the deletion of `t`. */
  function Survives(t: Transaction, deleteAllNext: bool): Transaction -> bool {
    if Cascades(t, deleteAllNext) then (x: Transaction) => !LaterInstallment(t, x)
    else (x: Transaction) => x.id != t.id
  }

  /** A remaining user entry of the same category in the same calendar month as `t`. */
  function SameCategoryMonth(t: Transaction): Transaction -> bool {
    (x: Transaction) => x.categoryId == t.categoryId && x.date.year == t.date.year &&
                        x.date.month == t.date.month && !IsAutoInvoice(x)
  }

  /** The bill side of `deleteTransaction`: an expense whose category exists
      and that leaves no other user entry of that category in its month
      marks the first bill named like the category unpaid for that month. */
  function ReleaseBill(bills: seq<RecurringBill>, categories: seq<Category>, t: Transaction,
                       remaining: seq<Transaction>): (r: seq<RecurringBill>)
    ensures |r| == |bills|
    ensures t.kind != Expense || FindCategory(categories, t.categoryId).None? || Exists(remaining, SameCategoryMonth(t)) ==>
              r == bills
    ensures t.kind == Expense && FindCategory(categories, t.categoryId).Some? && !Exists(remaining, SameCategoryMonth(t)) ==>
              r == ClearFirstBill(bills, FindCategory(categories, t.categoryId).value.name, YearMonthOf(t.date))
  {
    var cat := FindCategory(categories, t.categoryId);
    if t.kind == Expense && cat.Some? && !Exists(remaining, SameCategoryMonth(t)) then
      ClearFirstBill(bills, cat.value.name, YearMonthOf(t.date))
    else bills
  }

  /** `deleteTransaction(id, deleteAllNext)`. An unknown id changes nothing.
      Deleting an entry that is not a card purchase, a synthetic invoice
      included, removes exactly what the filter removes. */
  function DeleteTransaction(s: Store, id: string, deleteAllNext: bool, env: Env): (r: Store)
    ensures (forall j :: 0 <= j < |s.transactions| ==> s.transactions[j].id != id) ==> r == s
    ensures Find(s.transactions, HasId(id)).Some? ==>
              Filter(r.transactions, NotAutoInvoice)
              == Filter(Filter(s.transactions, Survives(Find(s.transactions, HasId(id)).value, deleteAllNext)), NotAutoInvoice)
    ensures Find(s.transactions, HasId(id)).Some? && !IsCreditCardMethod(s.paymentMethods, Find(s.transactions, HasId(id)).value.paymentMethodId) ==>
              r.transactions == Filter(s.transactions, Survives(Find(s.transactions, HasId(id)).value, deleteAllNext))
    ensures r.paymentMethods == s.paymentMethods && r.categories == s.categories
    ensures r.accounts == s.accounts && r.closingDays == s.closingDays
    ensures Find(s.transactions, HasId(id)).Some? ==>
              var t := Find(s.transactions, HasId(id)).value;
              r.bills == ReleaseBill(s.bills, s.categories, t, Filter(s.transactions, Survives(t, deleteAllNext)))
  {
    match Find(s.transactions, HasId(id))
    case None => s
    case Some(t) =>
      var remaining := Filter(s.transactions, Survives(t, deleteAllNext));
      var s' := s.(transactions := remaining, bills := ReleaseBill(s.bills, s.categories, t, remaining));
      if IsCreditCardMethod(s.paymentMethods, t.paymentMethodId) then
        var r := SyncAllLinkedInvoices(s', env);
        SyncAllReconcilesWindowFrame(s', env);
        r
      else s'
  }

  /** The parts of `syncAllLinkedInvoices` that need no invariant: it keeps
      the user's entries and everything but the transaction list. */
  lemma SyncAllReconcilesWindowFrame(s: Store, env: Env)
    ensures Filter(SyncAllLinkedInvoices(s, env).transactions, NotAutoInvoice) == Filter(s.transactions, NotAutoInvoice)
    ensures SyncAllLinkedInvoices(s, env).(transactions := s.transactions) == s
  {
    var window := BillingWindow(env.today);
    var jobs := Jobs(LinkedCards(s.paymentMethods), window);
    assert ValidJobs(jobs);
    SyncJobsKeepsUserEntries(s, jobs, env);
  }

  /** Which user entries a deletion keeps: with the cascade, exactly those
      outside the later installments of the group; without it, exactly those
      with another id. */
  lemma DeleteTransactionKeeps(s: Store, id: string, deleteAllNext: bool, env: Env, t: Transaction, x: Transaction)
    requires Find(s.transactions, HasId(id)) == Some(t)
    requires !IsAutoInvoice(x)
    ensures x in DeleteTransaction(s, id, deleteAllNext, env).transactions <==>
              x in s.transactions && (if Cascades(t, deleteAllNext) then !LaterInstallment(t, x) else x.id != id)
  {
    var r := DeleteTransaction(s, id, deleteAllNext, env);
    var p := Survives(t, deleteAllNext);
    var remaining := Filter(s.transactions, p);
    FilterMembers(s.transactions, p);
    FilterMembers(remaining, NotAutoInvoice);
    FilterMembers(r.transactions, NotAutoInvoice);
    assert x in r.transactions <==> x in Filter(r.transactions, NotAutoInvoice);
    assert x in remaining <==> x in s.transactions && p(x);
  }

  /** The cascade from installment k of n removes every installment k..n of
      the group and keeps 1..k-1 (user entries; invoices are re-synchronised). */
  lemma DeleteCascadeRemovesLaterInstallments(s: Store, id: string, env: Env, t: Transaction, x: Transaction)
    requires Find(s.transactions, HasId(id)) == Some(t) && Cascades(t, true)
    requires x in s.transactions && !IsAutoInvoice(x) && x.groupId == t.groupId
    ensures x in DeleteTransaction(s, id, true, env).transactions <==> IndexOrZero(x) < IndexOrZero(t)
  {
    DeleteTransactionKeeps(s, id, true, env, t, x);
  }

  /** After deleting a card purchase, every linked card's invoice is
      reconciled over the whole window. */
  lemma DeleteTransactionReconciles(s: Store, id: string, deleteAllNext: bool, env: Env, t: Transaction)
    requires Find(s.transactions, HasId(id)) == Some(t)
    requires IsCreditCardMethod(s.paymentMethods, t.paymentMethodId)
    requires UniqueInvoiceKeys(s.transactions)
    ensures var r := DeleteTransaction(s, id, deleteAllNext, env);
            forall pm, ym :: pm in s.paymentMethods && HasLinkedAccount(pm) && ym in BillingWindow(env.today) ==>
              Reconciled(r, pm.id, ym)
  {
    var remaining := Filter(s.transactions, Survives(t, deleteAllNext));
    var s' := s.(transactions := remaining, bills := ReleaseBill(s.bills, s.categories, t, remaining));
    forall key | StartsWith(key, AutoInvoicePrefix)
      ensures |Holders(remaining, key)| <= 1
    {
      FilterShrinks(s.transactions, Survives(t, deleteAllNext), HoldsKey(key));
    }
    SyncAllReconcilesWindow(s', env);
  }

  function HasBillId(id: string): RecurringBill -> bool {
    (b: RecurringBill) => b.id == id
  }

  /** `toggleBillPayment(billId, year, month)`: the first bill with that id has
      its flag for the month negated (an absent flag counts as unpaid); an
      unknown id changes nothing. */
  function ToggleBillPayment(bills: seq<RecurringBill>, billId: string, ym: YearMonth): (r: seq<RecurringBill>)
    ensures |r| == |bills|
    ensures var i := FirstIndex(bills, HasBillId(billId));
            (i < 0 ==> r == bills) &&
            (i >= 0 ==> BillPaid(r[i], ym) == !BillPaid(bills[i], ym) &&
                        r[i].id == bills[i].id && r[i].name == bills[i].name && r[i].dueDay == bills[i].dueDay &&
                        (forall m :: m != ym ==> BillPaid(r[i], m) == BillPaid(bills[i], m)) &&
                        (forall j :: 0 <= j < |r| && j != i ==> r[j] == bills[j]))
  {
    var i := FirstIndex(bills, HasBillId(billId));
    if i < 0 then bills
    else bills[i := bills[i].(payments := bills[i].payments[ym := !BillPaid(bills[i], ym)])]
  }

  /** Toggling twice restores every bill's paid status for every month. */
  lemma ToggleBillPaymentTwice(bills: seq<RecurringBill>, billId: string, ym: YearMonth)
    ensures var r := ToggleBillPayment(ToggleBillPayment(bills, billId, ym), billId, ym);
            |r| == |bills| &&
            forall j, m :: 0 <= j < |r| ==> BillPaid(r[j], m) == BillPaid(bills[j], m)
  {
    var r1 := ToggleBillPayment(bills, billId, ym);
    var i := FirstIndex(bills, HasBillId(billId));
    if i >= 0 {
      assert r1[i].id == billId;
      assert FirstIndex(r1, HasBillId(billId)) == i;
    } else {
      assert r1 == bills;
    }
  }

  /** The answer of a reference-checked delete and the store after it. */
  datatype Deletion = Deletion(deleted: bool, store: Store)

  /** `deleteCategory`: refused while any transaction uses the category;
      otherwise every category with that id is dropped and nothing else changes. */
  function DeleteCategory(s: Store, id: string): (r: Deletion)
    ensures r.deleted <==> forall j :: 0 <= j < |s.transactions| ==> s.transactions[j].categoryId != id
    ensures !r.deleted ==> r.store == s
    ensures r.deleted ==> r.store == s.(categories := r.store.categories)
    ensures r.deleted ==> forall c :: c in r.store.categories <==> c in s.categories && c.id != id
  {
    if Exists(s.transactions, (t: Transaction) => t.categoryId == id) then Deletion(false, s)
    else
      var kept := Filter(s.categories, (c: Category) => c.id != id);
      FilterMembers(s.categories, (c: Category) => c.id != id);
      Deletion(true, s.(categories := kept))
  }

  /** `deletePaymentMethod`: refused while any transaction uses the method. */
  function DeletePaymentMethod(s: Store, id: string): (r: Deletion)
    ensures r.deleted <==> forall j :: 0 <= j < |s.transactions| ==> s.transactions[j].paymentMethodId != id
    ensures !r.deleted ==> r.store == s
    ensures r.deleted ==> r.store == s.(paymentMethods := r.store.paymentMethods)
    ensures r.deleted ==> forall pm :: pm in r.store.paymentMethods <==> pm in s.paymentMethods && pm.id != id
  {
    if Exists(s.transactions, (t: Transaction) => t.paymentMethodId == id) then Deletion(false, s)
    else
      var kept := Filter(s.paymentMethods, (pm: PaymentMethod) => pm.id != id);
      FilterMembers(s.paymentMethods, (pm: PaymentMethod) => pm.id != id);
      Deletion(true, s.(paymentMethods := kept))
  }

  /** `deleteBankAccount`: refused while any transaction is posted to the account. */
  function DeleteBankAccount(s: Store, id: string): (r: Deletion)
    ensures r.deleted <==> forall j :: 0 <= j < |s.transactions| ==> s.transactions[j].bankAccountId != id
    ensures !r.deleted ==> r.store == s
    ensures r.deleted ==> r.store == s.(accounts := r.store.accounts)
    ensures r.deleted ==> forall a :: a in r.store.accounts <==> a in s.accounts && a.id != id
  {
    if Exists(s.transactions, (t: Transaction) => t.bankAccountId == id) then Deletion(false, s)
    else
      var kept := Filter(s.accounts, (a: BankAccount) => a.id != id);
      FilterMembers(s.accounts, (a: BankAccount) => a.id != id);
      Deletion(true, s.(accounts := kept))
  }

  /** A successful delete never leaves a dangling reference: no transaction
      names the deleted category, method or account. */
  lemma DeletesLeaveNoDanglingReference(s: Store, id: string)
    ensures DeleteCategory(s, id).deleted ==>
              forall t :: t in DeleteCategory(s, id).store.transactions ==> t.categoryId != id
    ensures DeletePaymentMethod(s, id).deleted ==>
              forall t :: t in DeletePaymentMethod(s, id).store.transactions ==> t.paymentMethodId != id
    ensures DeleteBankAccount(s, id).deleted ==>
              forall t :: t in DeleteBankAccount(s, id).store.transactions ==> t.bankAccountId != id
  {
  }
}
