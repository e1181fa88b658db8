/** Credit-card billing: the effective date that re-dates a card purchase into
    its billing month, and the synchronisation of one synthetic invoice
    transaction per (card, billing month) posted against the card's linked
    bank account. */
module Invoices {
  import opened Text
  import opened Dates
  import opened Ledger

  const DefaultClosingDay: int := 25

  /** The "Boleto" method every synthetic invoice is paid with; it is not a card,
      so an invoice is never aggregated into another invoice. */
  const InvoicePaymentMethodId: string := "pm6"

  const FallbackCategoryId: string := "1"

  /** The closing day configured for a purchase month; an absent or zero entry means 25. */
  function ClosingDay(closingDays: map<YearMonth, int>, ym: YearMonth): (day: int)
    ensures ym !in closingDays ==> day == DefaultClosingDay
    ensures day != 0
  {
    if ym in closingDays && closingDays[ym] != 0 then closingDays[ym] else DefaultClosingDay
  }

  /** `getEffectiveDate`: a purchase on a card counts one month later when made
      on or before the closing day of its month and two months later after it;
      anything else counts on its own date. */
  function EffectiveDate(pms: seq<PaymentMethod>, closingDays: map<YearMonth, int>, t: Transaction): (r: CalendarDate)
    ensures !IsCreditCardMethod(pms, t.paymentMethodId) ==> r == t.date
    ensures IsCreditCardMethod(pms, t.paymentMethodId) ==>
              MonthIndex(t.date) + 1 <= MonthIndex(r) <= MonthIndex(t.date) + 3
    ensures IsCreditCardMethod(pms, t.paymentMethodId) && t.date.day <= 28 ==>
              r.day == t.date.day &&
              MonthIndex(r) == MonthIndex(t.date) + (if t.date.day <= ClosingDay(closingDays, YearMonthOf(t.date)) then 1 else 2)
    ensures IsCreditCardMethod(pms, t.paymentMethodId) && t.date.day > ClosingDay(closingDays, YearMonthOf(t.date)) ==>
              MonthIndex(r) >= MonthIndex(t.date) + 2
    ensures IsCreditCardMethod(pms, t.paymentMethodId) ==>
              var k := if t.date.day <= ClosingDay(closingDays, YearMonthOf(t.date)) then 1 else 2;
              var target := MonthIndex(t.date) + k;
              (MonthIndex(r) == target <==> t.date.day <= DaysInMonthAt(target)) &&
              (MonthIndex(r) == target ==> r.day == t.date.day) &&
              (MonthIndex(r) != target ==> MonthIndex(r) == target + 1 && r.day == t.date.day - DaysInMonthAt(target))
  {
    if !IsCreditCardMethod(pms, t.paymentMethodId) then t.date
    else if t.date.day <= ClosingDay(closingDays, YearMonthOf(t.date)) then AddMonths(t.date, 1)
    else AddMonths(t.date, 2)
  }

  /** The effective date falls in billing month `month` of `year`. */
  predicate BilledIn(pms: seq<PaymentMethod>, closingDays: map<YearMonth, int>, t: Transaction, month: int, year: int) {
    var e := EffectiveDate(pms, closingDays, t);
    e.month == month && e.year == year
  }

  /** `AUTO_INVOICE_<card>_<month>_<year>`, the notes that mark a card's invoice for one month. */
  function InvoiceNotesKey(cardId: string, month: int, year: int): (key: string)
    ensures StartsWith(key, AutoInvoicePrefix)
  {
    AutoInvoicePrefix + cardId + "_" + IntToString(month) + "_" + IntToString(year)
  }

  lemma IntToStringHasNoUnderscore(i: int)
    ensures forall j :: 0 <= j < |IntToString(i)| ==> IntToString(i)[j] != '_'
  {
    if i < 0 {
      assert forall j :: 1 <= j < |IntToString(i)| ==> IntToString(i)[j] == NatToString(-i)[j - 1];
    }
  }

  /** Distinct (card, month, year) triples get distinct notes keys, even when a
      card id itself contains underscores. */
  lemma InvoiceNotesKeyInjective(c1: string, m1: int, y1: int, c2: string, m2: int, y2: int)
    requires InvoiceNotesKey(c1, m1, y1) == InvoiceNotesKey(c2, m2, y2)
    ensures c1 == c2 && m1 == m2 && y1 == y2
  {
    var a1 := AutoInvoicePrefix + c1 + "_" + IntToString(m1);
    var a2 := AutoInvoicePrefix + c2 + "_" + IntToString(m2);
    assert InvoiceNotesKey(c1, m1, y1) == a1 + ['_'] + IntToString(y1);
    assert InvoiceNotesKey(c2, m2, y2) == a2 + ['_'] + IntToString(y2);
    IntToStringHasNoUnderscore(y1);
    IntToStringHasNoUnderscore(y2);
    SplitAtLastSeparator(a1, IntToString(y1), a2, IntToString(y2), '_');
    IntToStringInjective(y1, y2);
    assert a1 == (AutoInvoicePrefix + c1) + ['_'] + IntToString(m1);
    assert a2 == (AutoInvoicePrefix + c2) + ['_'] + IntToString(m2);
    IntToStringHasNoUnderscore(m1);
    IntToStringHasNoUnderscore(m2);
    SplitAtLastSeparator(AutoInvoicePrefix + c1, IntToString(m1), AutoInvoicePrefix + c2, IntToString(m2), '_');
    IntToStringInjective(m1, m2);
    assert c1 == (AutoInvoicePrefix + c1)[|AutoInvoicePrefix|..];
    assert c2 == (AutoInvoicePrefix + c2)[|AutoInvoicePrefix|..];
  }

  /** A card purchase that counts toward the invoice of `month`/`year`. */
  function Contributes(pms: seq<PaymentMethod>, closingDays: map<YearMonth, int>, cardId: string, month: int, year: int): Transaction -> bool {
    (t: Transaction) => t.paymentMethodId == cardId && !IsAutoInvoice(t) && BilledIn(pms, closingDays, t, month, year)
  }

  /** The invoice total: the card's own purchases (never an invoice) billed in that month. */
  function InvoiceTotal(s: Store, cardId: string, month: int, year: int): real {
    SumWhere(s.transactions, Contributes(s.paymentMethods, s.closingDays, cardId, month, year))
  }

  function HoldsKey(key: string): Transaction -> bool {
    (t: Transaction) => t.notes == Some(key)
  }

  /** The transactions whose notes are exactly `key`, in store order. */
  function Holders(txs: seq<Transaction>, key: string): seq<Transaction> {
    Filter(txs, HoldsKey(key))
  }

  /** The account a card's invoices are posted to, when the first method with
      that id exists and carries a non-empty link. */
  function LinkedAccount(pms: seq<PaymentMethod>, cardId: string): (r: Option<string>)
    ensures r.Some? <==> FindPaymentMethod(pms, cardId).Some? && HasLinkedAccount(FindPaymentMethod(pms, cardId).value)
    ensures r.Some? ==> r.value != ""
    ensures r.Some? ==> r == FindPaymentMethod(pms, cardId).value.linkedAccountId
  {
    var card := FindPaymentMethod(pms, cardId);
    if card.Some? && HasLinkedAccount(card.value) then card.value.linkedAccountId else None
  }

  predicate IsCardCategory(c: Category) {
    Contains(Lower(c.name), "cartão") && c.kind == Expense
  }

  predicate IsExpenseCategory(c: Category) {
    c.kind == Expense
  }

  /** The category an invoice is filed under: the first expense category whose
      name mentions "cartão", else the first expense category, else id "1". */
  function InvoiceCategoryId(categories: seq<Category>): (id: string)
    ensures Exists(categories, IsCardCategory) ==>
              exists j :: 0 <= j < |categories| && IsCardCategory(categories[j]) && categories[j].id == id
    ensures Exists(categories, IsExpenseCategory) ==>
              exists j :: 0 <= j < |categories| && IsExpenseCategory(categories[j]) && categories[j].id == id
    ensures !Exists(categories, IsExpenseCategory) ==> id == FallbackCategoryId
    ensures Exists(categories, IsCardCategory) ==> id == Find(categories, IsCardCategory).value.id
    ensures !Exists(categories, IsCardCategory) && Exists(categories, IsExpenseCategory) ==>
              id == Find(categories, IsExpenseCategory).value.id
  {
    match Find(categories, IsCardCategory)
    case Some(c) => c.id
    case None =>
      match Find(categories, IsExpenseCategory)
      case Some(c) => c.id
      case None => FallbackCategoryId
  }

  /** The synthetic invoice for one card and month. */
  function InvoiceTransaction(id: string, card: PaymentMethod, account: string, month: int, year: int,
                              total: real, categoryId: string, caption: string): (t: Transaction)
    requires 0 <= month < 12
    ensures IsAutoInvoice(t) && t.notes == Some(InvoiceNotesKey(card.id, month, year))
  {
    Transaction(id, Date(year, month, 5), "Fatura: " + card.name + " (" + caption + ")", categoryId, account,
                Expense, total, InvoicePaymentMethodId, Projected, Some(InvoiceNotesKey(card.id, month, year)),
                None, None, None)
  }

  /** The invoice `syncInvoiceTransaction` writes for a card with a linked account. */
  function InvoiceFor(pms: seq<PaymentMethod>, categories: seq<Category>, cardId: string, month: int, year: int,
                      total: real, id: string, caption: string): (t: Transaction)
    requires 0 <= month < 12 && LinkedAccount(pms, cardId).Some?
    ensures t.id == id && t.notes == Some(InvoiceNotesKey(cardId, month, year))
    ensures IsInvoiceFor(t, LinkedAccount(pms, cardId).value, total, YearMonth(year, month), InvoiceCategoryId(categories))
  {
    var card := FindPaymentMethod(pms, cardId).value;
    InvoiceTransaction(id, card, card.linkedAccountId.value, month, year, total, InvoiceCategoryId(categories), caption)
  }

  /** What the invoice of a card for one month must look like. */
  predicate IsInvoiceFor(t: Transaction, account: string, total: real, ym: YearMonth, categoryId: string) {
    && t.date == Date(ym.year, ym.month, 5)
    && t.kind == Expense
    && t.status == Projected
    && t.paymentMethodId == InvoicePaymentMethodId
    && t.value == total
    && t.bankAccountId == account
    && t.categoryId == categoryId
  }

  /** The store agrees with its card purchases for one (card, month): a card
      with a linked account has exactly one invoice carrying the month's total
      when that total is positive, and none otherwise. */
  predicate Reconciled(s: Store, cardId: string, ym: YearMonth) {
    var holders := Holders(s.transactions, InvoiceNotesKey(cardId, ym.month, ym.year));
    var total := InvoiceTotal(s, cardId, ym.month, ym.year);
    match LinkedAccount(s.paymentMethods, cardId)
    case None => true
    case Some(account) =>
      if total > 0.0 then |holders| == 1 && IsInvoiceFor(holders[0], account, total, ym, InvoiceCategoryId(s.categories))
      else holders == []
  }

  /** At most one transaction carries any given invoice key. */
  ghost predicate UniqueInvoiceKeys(txs: seq<Transaction>) {
    forall key :: StartsWith(key, AutoInvoicePrefix) ==> |Holders(txs, key)| <= 1
  }

  /** The single edit a synchronisation makes to the transaction list. */
  datatype InvoiceAction = Keep | Remove(at: nat) | Replace(at: nat, invoice: Transaction) | Append(invoice: Transaction)

  predicate Applicable(txs: seq<Transaction>, a: InvoiceAction) {
    (a.Remove? || a.Replace?) ==> a.at < |txs|
  }

  function ApplyAction(txs: seq<Transaction>, a: InvoiceAction): seq<Transaction>
    requires Applicable(txs, a)
  {
    match a
    case Keep => txs
    case Remove(i) => txs[..i] + txs[i + 1..]
    case Replace(i, inv) => txs[i := inv]
    case Append(inv) => txs + [inv]
  }

  /** Everything the action deletes, overwrites or adds carries the notes `key`. */
  predicate TouchesOnly(txs: seq<Transaction>, a: InvoiceAction, key: string) {
    match a
    case Keep => true
    case Remove(i) => i < |txs| && txs[i].notes == Some(key)
    case Replace(i, inv) => i < |txs| && txs[i].notes == Some(key) && inv.notes == Some(key)
    case Append(inv) => inv.notes == Some(key)
  }

  /** An action that only touches holders of `key` is invisible to any filter rejecting them. */
  lemma ApplyActionKeepsFilter(txs: seq<Transaction>, a: InvoiceAction, key: string, p: Transaction -> bool)
    requires Applicable(txs, a) && TouchesOnly(txs, a, key)
    requires forall t: Transaction :: t.notes == Some(key) ==> !p(t)
    ensures Filter(ApplyAction(txs, a), p) == Filter(txs, p)
  {
    match a
    case Keep =>
    case Remove(i) => FilterIgnoresRemoved(txs, i, p);
    case Replace(i, inv) => FilterIgnoresReplaced(txs, i, inv, p);
    case Append(inv) => FilterAppend(txs, inv, p);
  }

  /** What `syncInvoiceTransaction(cardId, month, year)` does to the transaction
      list. A card that is missing or has no linked account changes nothing; a
      non-positive total deletes the first holder of the month's key; a positive
      total overwrites that holder in place, keeping its id, or appends a new
      invoice with id `newId`. */
  function SyncAction(s: Store, cardId: string, month: int, year: int, newId: string, caption: string): (a: InvoiceAction)
    requires 0 <= month < 12
    ensures Applicable(s.transactions, a)
    ensures TouchesOnly(s.transactions, a, InvoiceNotesKey(cardId, month, year))
    ensures LinkedAccount(s.paymentMethods, cardId).None? ==> a == Keep
    ensures (a.Remove? || a.Replace?) ==>
              forall j :: 0 <= j < a.at ==> s.transactions[j].notes != Some(InvoiceNotesKey(cardId, month, year))
    ensures (a.Remove? || (a.Keep? && LinkedAccount(s.paymentMethods, cardId).Some?)) ==>
              InvoiceTotal(s, cardId, month, year) <= 0.0
    ensures (a.Keep? && LinkedAccount(s.paymentMethods, cardId).Some?) || a.Append? ==>
              Holders(s.transactions, InvoiceNotesKey(cardId, month, year)) == []
    ensures a.Replace? ==> a.invoice.id == s.transactions[a.at].id
    ensures a.Append? ==> a.invoice.id == newId
    ensures (a.Replace? || a.Append?) ==>
              LinkedAccount(s.paymentMethods, cardId).Some? && InvoiceTotal(s, cardId, month, year) > 0.0 &&
              a.invoice == InvoiceFor(s.paymentMethods, s.categories, cardId, month, year,
                                      InvoiceTotal(s, cardId, month, year), a.invoice.id, caption)
  {
    if LinkedAccount(s.paymentMethods, cardId).None? then Keep
    else
      var key := InvoiceNotesKey(cardId, month, year);
      var total := InvoiceTotal(s, cardId, month, year);
      var i := FirstIndex(s.transactions, HoldsKey(key));
      FilterAllOrNone(s.transactions, HoldsKey(key));
      if total <= 0.0 then
        if i >= 0 then Remove(i) else Keep
      else
        var id := if i >= 0 then s.transactions[i].id else newId;
        var invoice := InvoiceFor(s.paymentMethods, s.categories, cardId, month, year, total, id, caption);
        if i >= 0 then Replace(i, invoice) else Append(invoice)
  }

  /** `syncInvoiceTransaction(cardId, month, year)`: only the transaction list changes. */
  function SyncInvoice(s: Store, cardId: string, month: int, year: int, newId: string, caption: string): (r: Store)
    requires 0 <= month < 12
    ensures r.(transactions := s.transactions) == s
    ensures LinkedAccount(s.paymentMethods, cardId).None? ==> r == s
  {
    s.(transactions := ApplyAction(s.transactions, SyncAction(s, cardId, month, year, newId, caption)))
  }

  /** Synchronising an invoice touches only synthetic invoices: the user's own
      transactions are the same, in the same order. */
  lemma SyncInvoiceKeepsUserEntries(s: Store, cardId: string, month: int, year: int, newId: string, caption: string)
    requires 0 <= month < 12
    ensures Filter(SyncInvoice(s, cardId, month, year, newId, caption).transactions, NotAutoInvoice)
         == Filter(s.transactions, NotAutoInvoice)
  {
    var key := InvoiceNotesKey(cardId, month, year);
    ApplyActionKeepsFilter(s.transactions, SyncAction(s, cardId, month, year, newId, caption), key, NotAutoInvoice);
  }

  /** Holders of every key but the synchronised one are unchanged. */
  lemma SyncInvoiceKeepsEveryOtherKey(s: Store, cardId: string, month: int, year: int, newId: string, caption: string)
    requires 0 <= month < 12
    ensures forall k :: k != InvoiceNotesKey(cardId, month, year) ==>
              Holders(SyncInvoice(s, cardId, month, year, newId, caption).transactions, k) == Holders(s.transactions, k)
  {
    forall k | k != InvoiceNotesKey(cardId, month, year)
      ensures Holders(SyncInvoice(s, cardId, month, year, newId, caption).transactions, k) == Holders(s.transactions, k)
    {
      SyncInvoiceKeepsOtherKeys(s, cardId, month, year, newId, caption, k);
    }
  }

  /** Synchronising one key leaves the holders of every other notes value alone. */
  lemma SyncInvoiceKeepsOtherKeys(s: Store, cardId: string, month: int, year: int, newId: string, caption: string, k: string)
    requires 0 <= month < 12
    requires k != InvoiceNotesKey(cardId, month, year)
    ensures Holders(SyncInvoice(s, cardId, month, year, newId, caption).transactions, k) == Holders(s.transactions, k)
  {
    var key := InvoiceNotesKey(cardId, month, year);
    ApplyActionKeepsFilter(s.transactions, SyncAction(s, cardId, month, year, newId, caption), key, HoldsKey(k));
  }

  /** Invoice totals never see invoices, so two stores with the same user
      entries, methods and closing days have the same totals. */
  lemma InvoiceTotalOnlySeesUserEntries(s: Store, u: Store, cardId: string, month: int, year: int)
    requires Filter(s.transactions, NotAutoInvoice) == Filter(u.transactions, NotAutoInvoice)
    requires s.paymentMethods == u.paymentMethods && s.closingDays == u.closingDays
    ensures InvoiceTotal(s, cardId, month, year) == InvoiceTotal(u, cardId, month, year)
  {
    var q := Contributes(s.paymentMethods, s.closingDays, cardId, month, year);
    SumWhereAgrees(s.transactions, u.transactions, NotAutoInvoice, q);
  }

  /** Synchronising one invoice changes no invoice total, its own included. */
  lemma SyncInvoiceKeepsTotals(s: Store, cardId: string, month: int, year: int, newId: string, caption: string,
                               c: string, m: int, y: int)
    requires 0 <= month < 12
    ensures InvoiceTotal(SyncInvoice(s, cardId, month, year, newId, caption), c, m, y) == InvoiceTotal(s, c, m, y)
  {
    SyncInvoiceKeepsUserEntries(s, cardId, month, year, newId, caption);
    InvoiceTotalOnlySeesUserEntries(SyncInvoice(s, cardId, month, year, newId, caption), s, c, m, y);
  }

  /** The holders after an action at the first holder, when there was at most one. */
  lemma HoldersAfterAction(txs: seq<Transaction>, a: InvoiceAction, key: string)
    requires Applicable(txs, a) && TouchesOnly(txs, a, key)
    requires |Holders(txs, key)| <= 1
    requires (a.Remove? || a.Replace?) ==> forall j :: 0 <= j < a.at ==> txs[j].notes != Some(key)
    requires a.Append? ==> Holders(txs, key) == []
    ensures a.Remove? ==> Holders(ApplyAction(txs, a), key) == []
    ensures a.Replace? || a.Append? ==> Holders(ApplyAction(txs, a), key) == [a.invoice]
  {
    var p := HoldsKey(key);
    match a
    case Keep =>
    case Remove(i) =>
      HoldersAroundFirst(txs, i, key);
      FilterConcat(txs[..i], txs[i + 1..], p);
    case Replace(i, inv) =>
      HoldersAroundFirst(txs, i, key);
      HoldersAfterReplace(txs, i, inv, key);
    case Append(inv) =>
      FilterAppend(txs, inv, p);
  }

  /** When the holder at `i` is the only one, nothing else holds the key. */
  lemma HoldersAroundFirst(txs: seq<Transaction>, i: nat, key: string)
    requires i < |txs| && txs[i].notes == Some(key)
    requires |Holders(txs, key)| <= 1
    requires forall j :: 0 <= j < i ==> txs[j].notes != Some(key)
    ensures Filter(txs[..i], HoldsKey(key)) == [] && Filter(txs[i + 1..], HoldsKey(key)) == []
  {
    var p := HoldsKey(key);
    FilterAllOrNone(txs[..i], p);
    FilterAround(txs, i, p);
    FilterSingleton(txs[i], p);
    assert |Filter(txs, p)| == 1 + |Filter(txs[i + 1..], p)|;
  }

  /** Overwriting the only holder with another holder leaves just that one. */
  lemma HoldersAfterReplace(txs: seq<Transaction>, i: nat, inv: Transaction, key: string)
    requires i < |txs| && inv.notes == Some(key)
    requires Filter(txs[..i], HoldsKey(key)) == [] && Filter(txs[i + 1..], HoldsKey(key)) == []
    ensures Holders(txs[i := inv], key) == [inv]
  {
    var p := HoldsKey(key);
    var r := txs[i := inv];
    FilterAround(r, i, p);
    FilterSingleton(inv, p);
    assert r[..i] == txs[..i];
    assert r[i + 1..] == txs[i + 1..];
  }

  /** After a sync, a linked card's invoice for that month is reconciled,
      provided no two transactions carried its key before. */
  lemma SyncInvoiceReconciles(s: Store, cardId: string, month: int, year: int, newId: string, caption: string)
    requires 0 <= month < 12
    requires |Holders(s.transactions, InvoiceNotesKey(cardId, month, year))| <= 1
    ensures Reconciled(SyncInvoice(s, cardId, month, year, newId, caption), cardId, YearMonth(year, month))
  {
    var key := InvoiceNotesKey(cardId, month, year);
    var a := SyncAction(s, cardId, month, year, newId, caption);
    SyncInvoiceKeepsTotals(s, cardId, month, year, newId, caption, cardId, month, year);
    HoldersAfterAction(s.transactions, a, key);
  }

  /** Synchronising keeps every invoice key held at most once. */
  lemma SyncInvoicePreservesUniqueKeys(s: Store, cardId: string, month: int, year: int, newId: string, caption: string)
    requires 0 <= month < 12
    requires UniqueInvoiceKeys(s.transactions)
    ensures UniqueInvoiceKeys(SyncInvoice(s, cardId, month, year, newId, caption).transactions)
  {
    var r := SyncInvoice(s, cardId, month, year, newId, caption);
    var key := InvoiceNotesKey(cardId, month, year);
    var a := SyncAction(s, cardId, month, year, newId, caption);
    HoldersAfterAction(s.transactions, a, key);
    forall k | StartsWith(k, AutoInvoicePrefix)
      ensures |Holders(r.transactions, k)| <= 1
    {
      if k != key {
        SyncInvoiceKeepsOtherKeys(s, cardId, month, year, newId, caption, k);
      }
    }
  }

  /** `FirstIndex` finds the first position `p` accepts, wherever that is. */
  lemma FirstIndexIs(txs: seq<Transaction>, p: Transaction -> bool, i: int)
    requires 0 <= i < |txs| && p(txs[i])
    requires forall j :: 0 <= j < i ==> !p(txs[j])
    ensures FirstIndex(txs, p) == i
  {
  }

  /** Synchronising twice with the same inputs gives the same store as once. */
  lemma SyncInvoiceIdempotent(s: Store, cardId: string, month: int, year: int, newId: string, caption: string)
    requires 0 <= month < 12
    requires |Holders(s.transactions, InvoiceNotesKey(cardId, month, year))| <= 1
    ensures var r := SyncInvoice(s, cardId, month, year, newId, caption);
            SyncInvoice(r, cardId, month, year, newId, caption) == r
  {
    var key := InvoiceNotesKey(cardId, month, year);
    var r := SyncInvoice(s, cardId, month, year, newId, caption);
    var a := SyncAction(s, cardId, month, year, newId, caption);
    var a2 := SyncAction(r, cardId, month, year, newId, caption);
    SyncInvoiceKeepsTotals(s, cardId, month, year, newId, caption, cardId, month, year);
    HoldersAfterAction(s.transactions, a, key);
    if a2.Remove? || a2.Replace? {
      TouchedIsHolder(r.transactions, a2, key);
    }
    assert a2.Keep? || (a2.Replace? && r.transactions[a2.at] == a2.invoice);
    SyncInvoiceNoop(r, cardId, month, year, newId, caption);
  }

  /** A synchronisation that keeps the list or rewrites an entry with itself changes nothing. */
  lemma SyncInvoiceNoop(s: Store, cardId: string, month: int, year: int, newId: string, caption: string)
    requires 0 <= month < 12
    requires var a := SyncAction(s, cardId, month, year, newId, caption);
             a.Keep? || (a.Replace? && s.transactions[a.at] == a.invoice)
    ensures SyncInvoice(s, cardId, month, year, newId, caption) == s
  {
    var a := SyncAction(s, cardId, month, year, newId, caption);
    if a.Replace? {
      assert s.transactions[a.at := a.invoice] == s.transactions;
    }
  }

  /** An entry an action removes or overwrites is among the key's holders. */
  lemma TouchedIsHolder(txs: seq<Transaction>, a: InvoiceAction, key: string)
    requires (a.Remove? || a.Replace?) && TouchesOnly(txs, a, key)
    ensures txs[a.at] in Holders(txs, key)
  {
    FilterMembers(txs, HoldsKey(key));
  }

  /** The synchronisation window: 25 consecutive months, from the month before
      today's through 23 months after it (`new Date(y, m + i, 1)`, i = -1..23). */
  function BillingWindow(today: CalendarDate): (w: seq<YearMonth>)
    ensures |w| == 25
    ensures forall i :: 0 <= i < 25 ==> 0 <= w[i].month < 12
    ensures forall i :: 0 <= i < 25 ==> 12 * w[i].year + w[i].month == MonthIndex(today) + i - 1
  {
    var w := seq(25, i requires 0 <= i < 25 => YearMonthOf(MakeDate(today.year, today.month + i - 1, 1)));
    assert forall i :: 0 <= i < 25 ==> w[i] == YearMonthOf(MakeDate(today.year, today.month + i - 1, 1));
    w
  }

  datatype InvoiceJob = InvoiceJob(cardId: string, period: YearMonth)

  predicate ValidJobs(jobs: seq<InvoiceJob>) {
    forall j :: 0 <= j < |jobs| ==> 0 <= jobs[j].period.month < 12
  }

  /** The payment methods carrying a non-empty linked account, in order. */
  function LinkedCards(pms: seq<PaymentMethod>): seq<PaymentMethod> {
    Filter(pms, HasLinkedAccount)
  }

  /** The calls the nested loops of `syncAllLinkedInvoices` make, in order:
      every month of the window for the first card, then for the next card. */
  function Jobs(cards: seq<PaymentMethod>, window: seq<YearMonth>): (jobs: seq<InvoiceJob>)
    ensures forall c, k :: 0 <= c < |cards| && 0 <= k < |window| ==> InvoiceJob(cards[c].id, window[k]) in jobs
    ensures forall j :: 0 <= j < |jobs| ==> jobs[j].period in window
  {
    if cards == [] then []
    else
      var first := seq(|window|, k requires 0 <= k < |window| => InvoiceJob(cards[0].id, window[k]));
      var rest := Jobs(cards[1..], window);
      assert forall c, k :: 1 <= c < |cards| && 0 <= k < |window| ==>
               InvoiceJob(cards[c].id, window[k]) == InvoiceJob(cards[1..][c - 1].id, window[k]);
      assert forall k :: 0 <= k < |window| ==> first[k] == InvoiceJob(cards[0].id, window[k]);
      first + rest
  }

  /** The id a newly created invoice gets: clock, card, month and year. */
  function InvoiceId(clock: int, cardId: string, month: int, year: int): string {
    "invoice-" + IntToString(clock) + "-" + cardId + "-" + IntToString(month) + "-" + IntToString(year)
  }

  /** The id the source builds, `invoice-${Date.now()}-${cardId}-${month}`, without the year. */
  function InvoiceIdAsWritten(clock: int, cardId: string, month: int): string {
    "invoice-" + IntToString(clock) + "-" + cardId + "-" + IntToString(month)
  }

  /** One step of the fold: the first job, run on `s`. */
  function SyncStep(s: Store, j: InvoiceJob, env: Env): Store
    requires 0 <= j.period.month < 12
  {
    SyncInvoice(s, j.cardId, j.period.month, j.period.year,
                InvoiceId(env.clock, j.cardId, j.period.month, j.period.year), env.monthLabel(j.period.month))
  }

  function SyncJobs(s: Store, jobs: seq<InvoiceJob>, env: Env): Store
    requires ValidJobs(jobs)
    decreases |jobs|
  {
    if jobs == [] then s
    else
      var j := jobs[0];
      SyncJobs(SyncStep(s, j, env), jobs[1..], env)
  }

  /** `syncAllLinkedInvoices`: every card with a linked account, every month of the window. */
  function SyncAllLinkedInvoices(s: Store, env: Env): Store {
    var window := BillingWindow(env.today);
    var jobs := Jobs(LinkedCards(s.paymentMethods), window);
    SyncJobs(s, jobs, env)
  }

  /** One synchronisation keeps every already reconciled (card, month) reconciled. */
  lemma SyncInvoiceKeepsReconciled(s: Store, cardId: string, month: int, year: int, newId: string, caption: string,
                                   c: string, ym: YearMonth)
    requires 0 <= month < 12
    requires UniqueInvoiceKeys(s.transactions)
    requires Reconciled(s, c, ym)
    ensures Reconciled(SyncInvoice(s, cardId, month, year, newId, caption), c, ym)
  {
    var key := InvoiceNotesKey(c, ym.month, ym.year);
    if key == InvoiceNotesKey(cardId, month, year) {
      InvoiceNotesKeyInjective(c, ym.month, ym.year, cardId, month, year);
      SyncInvoiceReconciles(s, cardId, month, year, newId, caption);
    } else {
      SyncInvoiceKeepsOtherKeys(s, cardId, month, year, newId, caption, key);
      SyncInvoiceKeepsTotals(s, cardId, month, year, newId, caption, c, ym.month, ym.year);
    }
  }

  lemma SyncJobsUnfold(s: Store, jobs: seq<InvoiceJob>, env: Env)
    requires ValidJobs(jobs) && jobs != []
    ensures ValidJobs(jobs[1..])
    ensures SyncJobs(s, jobs, env) == SyncJobs(SyncStep(s, jobs[0], env), jobs[1..], env)
  {
  }

  /** The fold keeps every invoice key held at most once. */
  lemma {:induction false} SyncJobsPreservesUniqueKeys(s: Store, jobs: seq<InvoiceJob>, env: Env)
    requires ValidJobs(jobs)
    requires UniqueInvoiceKeys(s.transactions)
    ensures UniqueInvoiceKeys(SyncJobs(s, jobs, env).transactions)
    decreases |jobs|
  {
    if jobs != [] {
      var j := jobs[0];
      SyncJobsUnfold(s, jobs, env);
      SyncInvoicePreservesUniqueKeys(s, j.cardId, j.period.month, j.period.year,
                                     InvoiceId(env.clock, j.cardId, j.period.month, j.period.year), env.monthLabel(j.period.month));
      SyncJobsPreservesUniqueKeys(SyncStep(s, j, env), jobs[1..], env);
    }
  }

  /** The fold leaves the user's entries, and everything but the transaction list, alone. */
  lemma {:induction false} SyncJobsKeepsUserEntries(s: Store, jobs: seq<InvoiceJob>, env: Env)
    requires ValidJobs(jobs)
    ensures Filter(SyncJobs(s, jobs, env).transactions, NotAutoInvoice) == Filter(s.transactions, NotAutoInvoice)
    ensures SyncJobs(s, jobs, env).(transactions := s.transactions) == s
    decreases |jobs|
  {
    if jobs != [] {
      var j := jobs[0];
      SyncJobsUnfold(s, jobs, env);
      SyncInvoiceKeepsUserEntries(s, j.cardId, j.period.month, j.period.year,
                                  InvoiceId(env.clock, j.cardId, j.period.month, j.period.year), env.monthLabel(j.period.month));
      SyncJobsKeepsUserEntries(SyncStep(s, j, env), jobs[1..], env);
    }
  }

  /** A (card, month) reconciled before the fold stays reconciled through it. */
  lemma {:induction false} SyncJobsKeepsReconciled(s: Store, jobs: seq<InvoiceJob>, env: Env, c: string, ym: YearMonth)
    requires ValidJobs(jobs)
    requires UniqueInvoiceKeys(s.transactions)
    requires Reconciled(s, c, ym)
    ensures Reconciled(SyncJobs(s, jobs, env), c, ym)
    decreases |jobs|
  {
    if jobs != [] {
      var j := jobs[0];
      var newId := InvoiceId(env.clock, j.cardId, j.period.month, j.period.year);
      var caption := env.monthLabel(j.period.month);
      SyncJobsUnfold(s, jobs, env);
      SyncInvoiceKeepsReconciled(s, j.cardId, j.period.month, j.period.year, newId, caption, c, ym);
      SyncInvoicePreservesUniqueKeys(s, j.cardId, j.period.month, j.period.year, newId, caption);
      SyncJobsKeepsReconciled(SyncStep(s, j, env), jobs[1..], env, c, ym);
    }
  }

  /** Running a list of synchronisations reconciles every (card, month) it names. */
  lemma {:induction false} SyncJobsReconciles(s: Store, jobs: seq<InvoiceJob>, env: Env)
    requires ValidJobs(jobs)
    requires UniqueInvoiceKeys(s.transactions)
    ensures forall j :: 0 <= j < |jobs| ==> Reconciled(SyncJobs(s, jobs, env), jobs[j].cardId, jobs[j].period)
    decreases |jobs|
  {
    if jobs != [] {
      var j := jobs[0];
      var newId := InvoiceId(env.clock, j.cardId, j.period.month, j.period.year);
      var caption := env.monthLabel(j.period.month);
      var s' := SyncStep(s, j, env);
      var r := SyncJobs(s, jobs, env);
      SyncJobsUnfold(s, jobs, env);
      SyncInvoicePreservesUniqueKeys(s, j.cardId, j.period.month, j.period.year, newId, caption);
      SyncInvoiceReconciles(s, j.cardId, j.period.month, j.period.year, newId, caption);
      SyncJobsReconciles(s', jobs[1..], env);
      SyncJobsKeepsReconciled(s', jobs[1..], env, j.cardId, j.period);
      forall k | 0 <= k < |jobs|
        ensures Reconciled(r, jobs[k].cardId, jobs[k].period)
      {
        if k > 0 {
          assert jobs[k] == jobs[1..][k - 1];
        }
      }
    }
  }

  /** After `syncAllLinkedInvoices`, every linked card's invoice for every month
      of the window carries exactly the card's billed total, and a month whose
      total is not positive has no invoice; the user's entries are untouched. */
  lemma SyncAllReconcilesWindow(s: Store, env: Env)
    requires UniqueInvoiceKeys(s.transactions)
    ensures var r := SyncAllLinkedInvoices(s, env);
            forall pm, ym :: pm in s.paymentMethods && HasLinkedAccount(pm) && ym in BillingWindow(env.today) ==>
              Reconciled(r, pm.id, ym)
    ensures Filter(SyncAllLinkedInvoices(s, env).transactions, NotAutoInvoice) == Filter(s.transactions, NotAutoInvoice)
    ensures UniqueInvoiceKeys(SyncAllLinkedInvoices(s, env).transactions)
  {
    var window := BillingWindow(env.today);
    var cards := LinkedCards(s.paymentMethods);
    var jobs := Jobs(cards, window);
    var r := SyncAllLinkedInvoices(s, env);
    assert ValidJobs(jobs);
    SyncJobsReconciles(s, jobs, env);
    SyncJobsPreservesUniqueKeys(s, jobs, env);
    SyncJobsKeepsUserEntries(s, jobs, env);
    forall pm, ym | pm in s.paymentMethods && HasLinkedAccount(pm) && ym in window
      ensures Reconciled(r, pm.id, ym)
    {
      JobsCoverLinkedCards(s.paymentMethods, window, pm, ym);
      var n :| 0 <= n < |jobs| && jobs[n] == InvoiceJob(pm.id, ym);
    }
  }

  /** Every linked card is synchronised for every month of the window. */
  lemma JobsCoverLinkedCards(pms: seq<PaymentMethod>, window: seq<YearMonth>, pm: PaymentMethod, ym: YearMonth)
    requires pm in pms && HasLinkedAccount(pm) && ym in window
    ensures InvoiceJob(pm.id, ym) in Jobs(LinkedCards(pms), window)
  {
    var cards := LinkedCards(pms);
    FilterMembers(pms, HasLinkedAccount);
    var c :| 0 <= c < |cards| && cards[c] == pm;
    var k :| 0 <= k < |window| && window[k] == ym;
    assert InvoiceJob(cards[c].id, window[k]) in Jobs(cards, window);
  }

  /** The source's invoice id omits the year, so the January window of 2026
      asks for ids of December 2025 and December 2026 that coincide. */
  lemma InvoiceIdAsWrittenCollides(clock: int, cardId: string)
    ensures var w := BillingWindow(Date(2026, 0, 10));
            w[0] == YearMonth(2025, 11) && w[12] == YearMonth(2026, 11) &&
            InvoiceIdAsWritten(clock, cardId, w[0].month) == InvoiceIdAsWritten(clock, cardId, w[12].month)
  {
    var w := BillingWindow(Date(2026, 0, 10));
    assert 12 * w[0].year + w[0].month == 12 * 2026 - 1;
    assert 12 * w[12].year + w[12].month == 12 * 2026 + 11;
  }

  /** The corrected id determines the month and year it was made for. */
  lemma InvoiceIdInjective(clock: int, cardId: string, m1: int, y1: int, m2: int, y2: int)
    requires m1 >= 0 && y1 >= 0 && m2 >= 0 && y2 >= 0
    requires InvoiceId(clock, cardId, m1, y1) == InvoiceId(clock, cardId, m2, y2)
    ensures m1 == m2 && y1 == y2
  {
    var prefix := "invoice-" + IntToString(clock) + "-" + cardId + "-";
    var a := prefix + IntToString(m1);
    var b := prefix + IntToString(m2);
    assert InvoiceId(clock, cardId, m1, y1) == a + ['-'] + IntToString(y1);
    assert InvoiceId(clock, cardId, m2, y2) == b + ['-'] + IntToString(y2);
    SplitAtLastSeparator(a, IntToString(y1), b, IntToString(y2), '-');
    assert IntToString(m1) == IntToString(m2) by {
      assert a[|prefix|..] == IntToString(m1);
      assert b[|prefix|..] == IntToString(m2);
    }
    IntToStringInjective(m1, m2);
    IntToStringInjective(y1, y2);
  }

  /** With the year in the id, distinct months of one window from year 1 on get distinct ids. */
  lemma InvoiceIdDistinctInWindow(today: CalendarDate, clock: int, cardId: string, i: int, j: int)
    requires today.year >= 1
    requires 0 <= i < 25 && 0 <= j < 25 && i != j
    ensures var w := BillingWindow(today);
            InvoiceId(clock, cardId, w[i].month, w[i].year) != InvoiceId(clock, cardId, w[j].month, w[j].year)
  {
    var w := BillingWindow(today);
    if InvoiceId(clock, cardId, w[i].month, w[i].year) == InvoiceId(clock, cardId, w[j].month, w[j].year) {
      InvoiceIdInjective(clock, cardId, w[i].month, w[i].year, w[j].month, w[j].year);
    }
  }
}
