/** The recurring-bill screen: the status badge of each bill for the year
    being viewed, and the counts of the summary chart. */
module DueDates {
  import opened Dates
  import opened Ledger
  import opened Lifecycle

  /** 'PAGO', 'ATRASADO', 'VENCENDO HOJE' and 'A VENCER'. */
  datatype DueStatus = Settled | Late | DueToday | Upcoming

  /** `getStatus`: a bill paid for the current month of the viewed year is
      settled whatever the date; an unpaid bill is late in a past year and
      upcoming in a future one; in the current year its due day is compared
      with today's day of month. */
  function GetStatus(b: RecurringBill, selectedYear: int, today: CalendarDate): (r: DueStatus)
    ensures r == Settled <==> BillPaid(b, YearMonth(selectedYear, today.month))
    ensures r != Settled && selectedYear < today.year ==> r == Late
    ensures r != Settled && selectedYear > today.year ==> r == Upcoming
    ensures r != Settled && selectedYear == today.year ==>
              (r == Late <==> b.dueDay < today.day) &&
              (r == DueToday <==> b.dueDay == today.day) &&
              (r == Upcoming <==> b.dueDay > today.day)
  {
    if BillPaid(b, YearMonth(selectedYear, today.month)) then Settled
    else if selectedYear < today.year then Late
    else if selectedYear > today.year then Upcoming
    else if b.dueDay < today.day then Late
    else if b.dueDay == today.day then DueToday
    else Upcoming
  }

  /** The status depends on the payment flag of the current month only:
      payments recorded for other months never change it. */
  lemma GetStatusOnlyReadsCurrentMonth(b: RecurringBill, c: RecurringBill, selectedYear: int, today: CalendarDate)
    requires b.dueDay == c.dueDay
    requires BillPaid(b, YearMonth(selectedYear, today.month)) == BillPaid(c, YearMonth(selectedYear, today.month))
    ensures GetStatus(b, selectedYear, today) == GetStatus(c, selectedYear, today)
  {
  }

  /** Toggling the current month's payment of a bill moves it into or out of
      'PAGO'. */
  lemma ToggleSettles(bills: seq<RecurringBill>, billId: string, selectedYear: int, today: CalendarDate)
    requires FirstIndex(bills, HasBillId(billId)) >= 0
    ensures var i := FirstIndex(bills, HasBillId(billId));
            var r := ToggleBillPayment(bills, billId, YearMonth(selectedYear, today.month));
            (GetStatus(r[i], selectedYear, today) == Settled) == (GetStatus(bills[i], selectedYear, today) != Settled)
  {
  }

  /** How many bills have status `st`. */
  function CountStatus(bills: seq<RecurringBill>, selectedYear: int, today: CalendarDate, st: DueStatus): (c: nat)
    ensures c <= |bills|
    decreases |bills|
  {
    if bills == [] then 0
    else
      CountStatus(bills[..|bills| - 1], selectedYear, today, st) +
      (if GetStatus(bills[|bills| - 1], selectedYear, today) == st then 1 else 0)
  }

  /** Every bill gets exactly one status, so the four counts add up to the
      number of bills. */
  lemma {:induction false} CountsPartition(bills: seq<RecurringBill>, selectedYear: int, today: CalendarDate)
    ensures CountStatus(bills, selectedYear, today, Settled) + CountStatus(bills, selectedYear, today, Late) +
            CountStatus(bills, selectedYear, today, DueToday) + CountStatus(bills, selectedYear, today, Upcoming) == |bills|
    decreases |bills|
  {
    if bills != [] {
      CountsPartition(bills[..|bills| - 1], selectedYear, today);
    }
  }

  /** The `summary` object: one count per status, and the total. */
  datatype Summary = Summary(settled: nat, late: nat, dueToday: nat, upcoming: nat, total: nat)

  /** `summary`: start every count at 0 and TOTAL at the number of bills,
      then add one to the count of each bill's status. */
  method Summarize(bills: seq<RecurringBill>, selectedYear: int, today: CalendarDate) returns (r: Summary)
    ensures r.total == |bills|
    ensures r.settled == CountStatus(bills, selectedYear, today, Settled)
    ensures r.late == CountStatus(bills, selectedYear, today, Late)
    ensures r.dueToday == CountStatus(bills, selectedYear, today, DueToday)
    ensures r.upcoming == CountStatus(bills, selectedYear, today, Upcoming)
    ensures r.settled + r.late + r.dueToday + r.upcoming == r.total
  {
    r := Summary(0, 0, 0, 0, |bills|);
    var i := 0;
    while i < |bills|
      invariant 0 <= i <= |bills|
      invariant r.total == |bills|
      invariant r.settled == CountStatus(bills[..i], selectedYear, today, Settled)
      invariant r.late == CountStatus(bills[..i], selectedYear, today, Late)
      invariant r.dueToday == CountStatus(bills[..i], selectedYear, today, DueToday)
      invariant r.upcoming == CountStatus(bills[..i], selectedYear, today, Upcoming)
    {
      assert bills[..i + 1][..i] == bills[..i];
      match GetStatus(bills[i], selectedYear, today) {
        case Settled => r := r.(settled := r.settled + 1);
        case Late => r := r.(late := r.late + 1);
        case DueToday => r := r.(dueToday := r.dueToday + 1);
        case Upcoming => r := r.(upcoming := r.upcoming + 1);
      }
      i := i + 1;
    }
    assert bills[..i] == bills;
    CountsPartition(bills, selectedYear, today);
  }
}
