/** The transaction form: validating a submission, building the entry or the
    credit-card installments it stands for, saving them one by one, the
    edit round trip, the payment-method pick that fills in the linked
    account, and the paid/projected toggle of the transaction list. */
module TransactionForm {
  import opened Text
  import opened Dates
  import opened Ledger
  import opened Lifecycle

  /** What the form holds when submitted. `date` is None when the date input
      was cleared; `status` is None when no status was chosen. */
  datatype Form = Form(
    date: Option<CalendarDate>,
    description: string,
    categoryId: string,
    bankAccountId: string,
    value: real,
    paymentMethodId: string,
    status: Option<Status>,
    notes: Option<string>)

  /** Rejected: the form is incomplete and an alert is shown. Crashed: the
      installment path was taken with no date, so the first installment's
      date is `Invalid Date` and rendering it throws before anything is
      saved. Built: the entries to save, in order. */
  datatype Outcome = Rejected | Crashed | Built(entries: seq<Transaction>)

  /** Category, account and payment method are chosen and the value is positive. */
  predicate Complete(f: Form) {
    f.categoryId != "" && f.bankAccountId != "" && f.paymentMethodId != "" && f.value > 0.0
  }

  /** A purchase is split into installments only on a card method, with more
      than one installment, and never while editing. */
  predicate Splits(isCard: bool, n: int, editing: Option<Transaction>) {
    isCard && n > 1 && editing.None?
  }

  /** The status chosen in the form, or paid when none was chosen. */
  function StatusOrPaid(f: Form): (st: Status)
    ensures f.status.None? ==> st == Paid
    ensures f.status.Some? ==> st == f.status.value
  {
    if f.status.Some? then f.status.value else Paid
  }

  function InstallmentId(groupId: string, i: nat): string {
    groupId + "-" + NatToString(i)
  }

  function InstallmentDescription(description: string, i: nat, n: nat): string {
    description + " (" + NatToString(i + 1) + "/" + NatToString(n) + ")"
  }

  /** The date of the installment `i` months after the purchase:
      `setMonth(getMonth() + i)` on the purchase date, so a day the target
      month lacks rolls into the month after it. */
  function InstallmentDate(base: CalendarDate, i: nat): (r: CalendarDate)
    ensures MonthIndex(r) == MonthIndex(base) + i <==> base.day <= DaysInMonthAt(MonthIndex(base) + i)
    ensures MonthIndex(r) == MonthIndex(base) + i ==> r.day == base.day
    ensures MonthIndex(r) != MonthIndex(base) + i ==>
              MonthIndex(r) == MonthIndex(base) + i + 1 && r.day < base.day
  {
    AddMonths(base, i)
  }

  /** A purchase on a day every month has gets one installment per month:
      installment `i` falls on the same day `i` months later, so no two share
      a month. */
  lemma InstallmentMonthsDistinct(base: CalendarDate, i: nat, j: nat)
    requires base.day <= 28
    requires i != j
    ensures MonthIndex(InstallmentDate(base, i)) == MonthIndex(base) + i
    ensures InstallmentDate(base, i).day == base.day
    ensures YearMonthOf(InstallmentDate(base, i)) != YearMonthOf(InstallmentDate(base, j))
  {
    AddMonthsKeepsEarlyDays(base, i);
    AddMonthsKeepsEarlyDays(base, j);
  }

  /** Rolling over can put two installments in one month and none in the
      month before it: three installments from 31 January 2026 fall on
      31 January, 3 March and 31 March. */
  lemma InstallmentDatesRollOver()
    ensures InstallmentDate(Date(2026, 0, 31), 1) == Date(2026, 2, 3)
    ensures InstallmentDate(Date(2026, 0, 31), 2) == Date(2026, 2, 31)
    ensures YearMonthOf(InstallmentDate(Date(2026, 0, 31), 1)) == YearMonthOf(InstallmentDate(Date(2026, 0, 31), 2))
  {
    AddMonthsRollsForward();
    AddMonthsToMarch();
  }

  /** Installment `i` (0-based) of `n` of the purchase described by `f`. */
  function Installment(f: Form, kind: Kind, n: nat, groupId: string, base: CalendarDate, i: nat): Transaction
    requires n > 0
  {
    Transaction(
      InstallmentId(groupId, i),
      InstallmentDate(base, i),
      InstallmentDescription(f.description, i, n),
      f.categoryId, f.bankAccountId, kind,
      f.value / n as real,
      f.paymentMethodId,
      StatusOrPaid(f),
      f.notes,
      Some(n), Some(i + 1), Some(groupId))
  }

  /** The installments of a purchase: `n` entries, installment `i` the `i`-th. */
  function Installments(f: Form, kind: Kind, n: nat, groupId: string, base: CalendarDate): (r: seq<Transaction>)
    requires n > 0
    ensures |r| == n
    ensures forall i :: 0 <= i < n ==> r[i] == Installment(f, kind, n, groupId, base, i)
  {
    seq(n, (i: int) requires 0 <= i < n => Installment(f, kind, n, groupId, base, i))
  }

  /** The single entry of the non-split path: the edited entry keeps its id
      and installment fields; a new one takes the group id; with no date the
      entry is dated today. */
  function Single(f: Form, kind: Kind, editing: Option<Transaction>, groupId: string, today: CalendarDate): (t: Transaction)
    ensures editing.Some? ==> t.id == editing.value.id && t.installments == editing.value.installments &&
                              t.installmentIndex == editing.value.installmentIndex && t.groupId == editing.value.groupId
    ensures editing.None? ==> t.id == groupId && t.installments.None? && t.installmentIndex.None? && t.groupId.None?
    ensures t.date == (if f.date.Some? then f.date.value else today)
    ensures t.value == f.value && t.status == StatusOrPaid(f) && t.kind == kind
  {
    Transaction(
      if editing.Some? then editing.value.id else groupId,
      if f.date.Some? then f.date.value else today,
      f.description,
      f.categoryId, f.bankAccountId, kind,
      f.value,
      f.paymentMethodId,
      StatusOrPaid(f),
      f.notes,
      if editing.Some? then editing.value.installments else None,
      if editing.Some? then editing.value.installmentIndex else None,
      if editing.Some? then editing.value.groupId else None)
  }

  /** The submit handler up to the saves: validation, then the installment
      path or the single path. `groupId` is the clock rendered in decimal. */
  function Build(f: Form, kind: Kind, n: int, editing: Option<Transaction>, isCard: bool, groupId: string, today: CalendarDate): (r: Outcome)
    ensures r.Rejected? <==> !Complete(f)
    ensures r.Crashed? <==> Complete(f) && Splits(isCard, n, editing) && f.date.None?
    ensures r.Built? && Splits(isCard, n, editing) ==> |r.entries| == n && SumValues(r.entries) == f.value
    ensures r.Built? && !Splits(isCard, n, editing) ==> |r.entries| == 1 && r.entries[0].value == f.value
  {
    if !Complete(f) then Rejected
    else if Splits(isCard, n, editing) then
      if f.date.None? then Crashed
      else
        InstallmentsSumToValue(f, kind, n, groupId, f.date.value);
        Built(Installments(f, kind, n, groupId, f.date.value))
    else Built([Single(f, kind, editing, groupId, today)])
  }

  lemma DividedShareTimesCount(v: real, n: nat)
    requires n > 0
    ensures n as real * (v / n as real) == v
  {
  }

  /** Saving entries one after another, in order. */
  function SaveAll(s: Store, ts: seq<Transaction>, env: Env): (r: Store)
    ensures r.paymentMethods == s.paymentMethods && r.categories == s.categories
    ensures r.accounts == s.accounts && r.closingDays == s.closingDays
    decreases |ts|
  {
    if ts == [] then s else SaveAll(SaveTransaction(s, ts[0], env), ts[1..], env)
  }

  /** `handleSubmit`: nothing is saved when the form is rejected or the
      installment path crashes; otherwise every built entry is saved. */
  function Submit(s: Store, f: Form, kind: Kind, n: int, editing: Option<Transaction>, env: Env): (r: Store)
    ensures !Complete(f) ==> r == s
    ensures Complete(f) && Splits(IsCreditCardMethod(s.paymentMethods, f.paymentMethodId), n, editing) && f.date.None? ==> r == s
    ensures r.paymentMethods == s.paymentMethods && r.categories == s.categories
    ensures r.accounts == s.accounts && r.closingDays == s.closingDays
  {
    var isCard := IsCreditCardMethod(s.paymentMethods, f.paymentMethodId);
    match Build(f, kind, n, editing, isCard, IntToString(env.clock), env.today)
    case Built(entries) => SaveAll(s, entries, env)
    case _ => s
  }

  /** The installments' values add up to the purchase value. */
  lemma InstallmentsSumToValue(f: Form, kind: Kind, n: nat, groupId: string, base: CalendarDate)
    requires n > 0
    ensures SumValues(Installments(f, kind, n, groupId, base)) == f.value
  {
    var r := Installments(f, kind, n, groupId, base);
    var c := f.value / n as real;
    forall j | 0 <= j < |r|
      ensures r[j].value == c
    {
      assert r[j] == Installment(f, kind, n, groupId, base, j);
    }
    SumOfEqualValues(r, c);
    RepeatShare(f.value, n);
  }

  /** `c` added `k` times. */
  function Repeat(k: nat, c: real): real {
    if k == 0 then 0.0 else c + Repeat(k - 1, c)
  }

  lemma {:induction false} RepeatIsProduct(k: nat, c: real)
    ensures Repeat(k, c) == k as real * c
  {
    if k > 0 {
      RepeatIsProduct(k - 1, c);
    }
  }

  lemma RepeatShare(v: real, n: nat)
    requires n > 0
    ensures Repeat(n, v / n as real) == v
  {
    RepeatIsProduct(n, v / n as real);
    DividedShareTimesCount(v, n);
  }

  lemma {:induction false} SumOfEqualValues(ts: seq<Transaction>, c: real)
    requires forall j :: 0 <= j < |ts| ==> ts[j].value == c
    ensures SumValues(ts) == Repeat(|ts|, c)
  {
    if ts != [] {
      SumOfEqualValues(ts[1..], c);
    }
  }

  /** Each installment carries the purchase's group, the count and its own
      1-based position, and is labelled "(position/count)". */
  lemma InstallmentsNumbered(f: Form, kind: Kind, n: nat, groupId: string, base: CalendarDate, i: nat)
    requires 0 <= i < n
    ensures var t := Installments(f, kind, n, groupId, base)[i];
            t.installments == Some(n) && t.installmentIndex == Some(i + 1) && 1 <= i + 1 <= n &&
            t.groupId == Some(groupId) && t.id == InstallmentId(groupId, i) &&
            t.description == f.description + " (" + NatToString(i + 1) + "/" + NatToString(n) + ")" &&
            t.date == AddMonths(base, i) && t.value == f.value / n as real
  {
  }

  /** Installment ids are distinct, so saving the installments never
      overwrites one with another. */
  lemma InstallmentIdsDistinct(groupId: string, i: nat, j: nat)
    requires InstallmentId(groupId, i) == InstallmentId(groupId, j)
    ensures i == j
  {
    var a := InstallmentId(groupId, i);
    assert a[|groupId| + 1..] == NatToString(i);
    assert InstallmentId(groupId, j)[|groupId| + 1..] == NatToString(j);
    NatToStringInjective(i, j);
  }

  lemma InstallmentsUniqueIds(f: Form, kind: Kind, n: nat, groupId: string, base: CalendarDate)
    requires n > 0
    ensures UniqueIds(Installments(f, kind, n, groupId, base))
  {
    var r := Installments(f, kind, n, groupId, base);
    forall i, j | 0 <= i < j < |r|
      ensures r[i].id != r[j].id
    {
      if r[i].id == r[j].id {
        InstallmentIdsDistinct(groupId, i, j);
      }
    }
  }

  /** A transaction saved earlier survives saving one with another id. */
  lemma SaveTransactionKeepsOthers(s: Store, t: Transaction, env: Env, x: Transaction)
    requires x in s.transactions && !IsAutoInvoice(x) && x.id != t.id
    ensures x in SaveTransaction(s, t, env).transactions
  {
    var r := SaveTransaction(s, t, env);
    var u := Upsert(s.transactions, t);
    var j :| 0 <= j < |s.transactions| && s.transactions[j] == x;
    assert u[j] == x;
    KeptByFilter(r.transactions, u, x);
  }

  /** A user entry of `b` is in any list with the same user entries. */
  lemma KeptByFilter(a: seq<Transaction>, b: seq<Transaction>, x: Transaction)
    requires Filter(a, NotAutoInvoice) == Filter(b, NotAutoInvoice)
    requires x in b && !IsAutoInvoice(x)
    ensures x in a
  {
    FilterMembers(a, NotAutoInvoice);
    FilterMembers(b, NotAutoInvoice);
    assert x in Filter(b, NotAutoInvoice);
  }

  lemma {:induction false} SaveAllKeeps(s: Store, ts: seq<Transaction>, env: Env, x: Transaction)
    requires x in s.transactions && !IsAutoInvoice(x)
    requires forall j :: 0 <= j < |ts| ==> ts[j].id != x.id
    ensures x in SaveAll(s, ts, env).transactions
    decreases |ts|
  {
    if ts != [] {
      SaveTransactionKeepsOthers(s, ts[0], env, x);
      SaveAllKeeps(SaveTransaction(s, ts[0], env), ts[1..], env, x);
    }
  }

  /** Saving entries with distinct ids, none of them a synthetic invoice,
      stores every one of them. */
  lemma {:induction false} SaveAllStores(s: Store, ts: seq<Transaction>, env: Env)
    requires UniqueIds(ts)
    requires forall j :: 0 <= j < |ts| ==> !IsAutoInvoice(ts[j])
    ensures forall j :: 0 <= j < |ts| ==> ts[j] in SaveAll(s, ts, env).transactions
    decreases |ts|
  {
    if ts != [] {
      var s1 := SaveTransaction(s, ts[0], env);
      SaveTransactionStores(s, ts[0], env);
      SaveAllKeeps(s1, ts[1..], env, ts[0]);
      SaveAllStores(s1, ts[1..], env);
      forall j | 0 <= j < |ts|
        ensures ts[j] in SaveAll(s, ts, env).transactions
      {
        if j > 0 {
          assert ts[j] == ts[1..][j - 1];
        }
      }
    }
  }

  /** The form's notes do not mark a synthetic invoice. */
  predicate UserNotes(f: Form) {
    !(f.notes.Some? && StartsWith(f.notes.value, AutoInvoicePrefix))
  }

  /** A valid submission stores every entry it builds: all installments, or
      the single entry. An edited invoice is stored too, unless its payment
      method is a card, whose re-synchronisation may replace it. */
  lemma SubmitStoresEntries(s: Store, f: Form, kind: Kind, n: int, editing: Option<Transaction>, env: Env)
    requires UserNotes(f) || !IsCreditCardMethod(s.paymentMethods, f.paymentMethodId)
    ensures var b := Build(f, kind, n, editing, IsCreditCardMethod(s.paymentMethods, f.paymentMethodId),
                           IntToString(env.clock), env.today);
            b.Built? ==> forall e :: e in b.entries ==> e in Submit(s, f, kind, n, editing, env).transactions
  {
    var isCard := IsCreditCardMethod(s.paymentMethods, f.paymentMethodId);
    var g := IntToString(env.clock);
    var b := Build(f, kind, n, editing, isCard, g, env.today);
    if b.Built? {
      if !UserNotes(f) {
        assert !Splits(isCard, n, editing);
        SubmitSingleStores(s, f, kind, n, editing, env);
      } else {
        if Splits(isCard, n, editing) {
          InstallmentsUniqueIds(f, kind, n, g, f.date.value);
        }
        SaveAllStores(s, b.entries, env);
      }
    }
  }

  /** A complete form that does not split saves its single entry, which is
      then stored unless it is an invoice on a card. */
  lemma SubmitSingleStores(s: Store, f: Form, kind: Kind, n: int, editing: Option<Transaction>, env: Env)
    requires Complete(f) && !Splits(IsCreditCardMethod(s.paymentMethods, f.paymentMethodId), n, editing)
    requires UserNotes(f) || !IsCreditCardMethod(s.paymentMethods, f.paymentMethodId)
    ensures Single(f, kind, editing, IntToString(env.clock), env.today) in Submit(s, f, kind, n, editing, env).transactions
  {
    var t := Single(f, kind, editing, IntToString(env.clock), env.today);
    var isCard := IsCreditCardMethod(s.paymentMethods, f.paymentMethodId);
    assert Build(f, kind, n, editing, isCard, IntToString(env.clock), env.today) == Built([t]);
    assert t.paymentMethodId == f.paymentMethodId && t.notes == f.notes;
    assert SaveAll(s, [t], env) == SaveAll(SaveTransaction(s, t, env), [], env) by {
      assert [t][1..] == [];
    }
    SaveTransactionStores(s, t, env);
  }

  /** `handleEdit`: the form loaded with an existing entry. */
  function EditForm(t: Transaction): (f: Form)
    ensures f.date == Some(t.date) && f.value == t.value && f.status == Some(t.status)
  {
    Form(Some(t.date), t.description, t.categoryId, t.bankAccountId, t.value,
         t.paymentMethodId, Some(t.status), t.notes)
  }

  /** Opening an entry for editing and submitting it unchanged rebuilds
      exactly that entry, whatever the installment count and the card test. */
  lemma EditRoundTrip(t: Transaction, n: int, isCard: bool, groupId: string, today: CalendarDate)
    requires Complete(EditForm(t))
    ensures Build(EditForm(t), t.kind, n, Some(t), isCard, groupId, today) == Built([t])
  {
  }

  /** `handlePaymentMethodChange`: choosing a method fills in the account
      linked to it, if any. */
  function ChoosePaymentMethod(f: Form, pms: seq<PaymentMethod>, pmId: string): (r: Form)
    ensures r.paymentMethodId == pmId
    ensures var pm := FindPaymentMethod(pms, pmId);
            if pm.Some? && HasLinkedAccount(pm.value)
            then r.bankAccountId == pm.value.linkedAccountId.value
            else r.bankAccountId == f.bankAccountId
    ensures r.(paymentMethodId := f.paymentMethodId, bankAccountId := f.bankAccountId) == f
  {
    var pm := FindPaymentMethod(pms, pmId);
    var r := f.(paymentMethodId := pmId);
    if pm.Some? && HasLinkedAccount(pm.value) then r.(bankAccountId := pm.value.linkedAccountId.value) else r
  }

  /** 'Pago' becomes 'Previsão' and back. */
  function Flip(st: Status): (r: Status)
    ensures r != st
  {
    if st == Paid then Projected else Paid
  }

  /** `toggleStatus`: save the entry with its status flipped. */
  function ToggleStatus(s: Store, t: Transaction, env: Env): (r: Store)
    ensures r.paymentMethods == s.paymentMethods && r.categories == s.categories
  {
    SaveTransaction(s, t.(status := Flip(t.status)), env)
  }

  /** Toggling stores the entry with the other status and nothing else
      changed; toggling that entry again stores the original. This holds for
      user entries and for invoices, which are not card purchases. */
  lemma ToggleStatusStores(s: Store, t: Transaction, env: Env)
    requires !IsAutoInvoice(t) || !IsCreditCardMethod(s.paymentMethods, t.paymentMethodId)
    ensures var u := t.(status := Flip(t.status));
            u in ToggleStatus(s, t, env).transactions && u.status != t.status && u.(status := t.status) == t
    ensures var u := t.(status := Flip(t.status));
            t in ToggleStatus(ToggleStatus(s, t, env), u, env).transactions
  {
    var u := t.(status := Flip(t.status));
    assert u.(status := Flip(u.status)) == t;
    SaveTransactionStores(s, u, env);
    SaveTransactionStores(ToggleStatus(s, t, env), t, env);
  }
}
