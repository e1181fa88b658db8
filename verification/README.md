# Family finance tracker — credit-card reconciliation core in Dafny

The application keeps everything in the browser's local storage as flat lists:
transactions, payment methods, categories, bank accounts, recurring bills, and
a map of per-month credit-card closing days. This project models the logic
that keeps those lists consistent, as pure functions over an immutable `Store`
record:

- **Effective date.** A credit-card purchase is re-dated into the month its
  invoice is paid, using the closing day of its purchase month. The default
  closing day is 25, and JavaScript `setMonth` roll-over applies.
- **Invoice synchronisation.** For each card with a linked bank account there
  is one synthetic `AUTO_INVOICE_<card>_<month>_<year>` transaction per
  billing month. It carries the month's card total, or is absent when that
  total is not positive. A card's invoices are resynchronised over a 25-month
  window.
- **Transactions.** Saving upserts the entry and marks the recurring bills named
  like its category as paid. Deleting can cascade to the later installments of
  the same purchase and can release the bill flag.
- **Reference-checked deletes.** A category, payment method or bank account is
  only deleted while no transaction uses it.
- **Read-side summaries.** These are the bank-account balances, the monthly
  summary and the per-category summary.
- **Currency parser.** `parseCurrencyBR` reads the digits of a field as cents.
- **Transaction form.** It validates input, splits a card purchase into
  installments, edits an entry and flips its status.
- **Due-date screen.** It assigns each recurring bill one of four statuses and
  counts them.
- **CSV backup.** It exports the seven storage keys as `Key;Value` rows with
  quoted values, and imports them back.

Files and modules:

| file | module | contents |
|---|---|---|
| text.dfy | Text | digits, decimal rendering of integers, lower-casing, substring tests |
| dates.dfy | Dates | calendar dates, `new Date(y, m, d)` and `setMonth` with roll-over |
| ledger.dfy | Ledger | entities, the card and invoice tests, first-match lookups, filters, sums |
| invoices.dfy | Invoices | effective date, `syncInvoiceTransaction`, `syncAllLinkedInvoices` |
| lifecycle.dfy | Lifecycle | save, delete, bill flags, reference-checked deletes |
| summaries.dfy | Summaries | account, monthly and category summaries |
| currency.dfy | Currency | `parseCurrencyBR` |
| transaction_form.dfy | TransactionForm | `handleSubmit`, `handleEdit`, `handlePaymentMethodChange`, `toggleStatus` |
| due_dates.dfy | DueDates | `getStatus` and the status summary |
| csv_backup.dfy | CsvBackup | CSV export and import of the storage keys |

Choices made in the model:

- The "is a credit card" test is modelled on the name. The first payment
  method with the id is taken, its name is lower-cased, and the test is
  whether it contains "crédito" (`Ledger.IsCreditCardMethod`).
- Money is `real`, so `value / n` and the sums are exact.
- Dates are `(year, 0-based month, day)` triples, as `getFullYear`,
  `getMonth` and `getDate` return them.
- The `"year-month"` keys of the closing-day and bill-payment maps are
  `YearMonth` pairs.
- Today's date, the millisecond clock behind generated ids, and the locale's
  month label are an `Env` parameter.

## Model

| member | source | states |
|---|---|---|
| Ledger.CreditCardNameTest | services/storageService.ts:169-175 | A method name passes the card test exactly when its lower-cased form contains "crédito"; the longer alternative adds nothing |
| Ledger.FirstIndex | services/storageService.ts:161 | `findIndex`: -1 when no element matches, otherwise a matching position with no match before it |
| Ledger.Find | services/storageService.ts:212 | `find`: a found value is the first matching element of the list, with no match before it; nothing is found exactly when no element matches |
| Ledger.FilterMembers | services/storageService.ts:408-413 | `filter` keeps exactly the elements of the list that satisfy the predicate |
| Ledger.FilterConcat | services/storageService.ts:482-485 | Filtering distributes over concatenation |
| Ledger.SumWhereIsSumOfFilter | services/storageService.ts:459-471 | A filter followed by a `reduce` sum equals the sum over the elements satisfying the predicate |
| Ledger.SumWhereDisjointUnion | services/storageService.ts:487-499 | The sum over two disjoint predicates is the sum of the two sums |
| Dates.MakeDate | services/storageService.ts:277 | `new Date(year, month, day)`: the date lies `day - 1` days after the first of the normalised month; a day of 28 or less stays in that month unchanged |
| Dates.AddMonths | services/storageService.ts:201-206 | `setMonth(getMonth() + k)` keeps the day and lands k months on exactly when the day exists in that month; otherwise it rolls into the next month, by the days the target month lacks |
| Dates.AddMonthsKeepsEarlyDays | services/storageService.ts:201-206 | A day of 28 or less never rolls over |
| Dates.AddMonthsRollsForward | services/storageService.ts:201-206 | 31 January plus one month is 3 March in a common year and 2 March in a leap year |
| Invoices.ClosingDay | services/storageService.ts:198-199 | The closing day of a purchase month with no entry is 25; it is never 0, because the fallback to 25 also replaces a zero entry |
| Invoices.EffectiveDate | services/storageService.ts:194-208 | A purchase on a non-card method keeps its date. A card purchase targets the month 1 ahead when its day is at most the closing day and 2 ahead otherwise. It lands in the target month on the same day exactly when that day exists there; otherwise it rolls into the following month, on the day minus the target month's length |
| Invoices.InvoiceNotesKey | services/storageService.ts:227 | The notes key always starts with the `AUTO_INVOICE_` prefix that marks synthetic invoices |
| Invoices.InvoiceNotesKeyInjective | services/storageService.ts:227 | Distinct (card, month, year) triples have distinct notes keys, so one invoice never stands for two months |
| Invoices.LinkedAccount | services/storageService.ts:212-214 | An account exists exactly when the first method with the card's id exists and has a non-empty link, and it is that method's linked account |
| Invoices.InvoiceCategoryId | services/storageService.ts:238-241 | The first expense category mentioning "cartão" when there is one; otherwise the first expense category when one exists; otherwise "1" |
| Invoices.InvoiceFor | services/storageService.ts:243-256 | The invoice is dated the 5th of the billing month, is an expense, is projected, is paid with "pm6", carries the total, posts to the linked account, and has the notes key |
| Invoices.SyncAction | services/storageService.ts:210-262 | Without a linked account nothing is done. A non-positive total removes the first holder of the key, or does nothing when there is none. A positive total replaces the first holder with the invoice, keeping its id, or appends the invoice with the fresh id. Only transactions holding the key are touched |
| Invoices.ApplyActionKeepsFilter | services/storageService.ts:230-262 | A synchronisation step is invisible to any filter that rejects the holders of the key |
| Invoices.SyncInvoice | services/storageService.ts:210-214 | Only the transaction list changes, and the store is left as it is when the card has no linked account |
| Invoices.SyncInvoiceKeepsUserEntries | services/storageService.ts:230-262 | The user's own entries (every non-invoice) are kept, in order |
| Invoices.SyncInvoiceKeepsOtherKeys | services/storageService.ts:227-262 | Holders of every other invoice key are unchanged |
| Invoices.SyncInvoiceKeepsEveryOtherKey | services/storageService.ts:227-262 | The same, for all other keys at once |
| Invoices.InvoiceTotalOnlySeesUserEntries | services/storageService.ts:218-225 | The invoice total depends only on the user's entries, the payment methods and the closing days |
| Invoices.SyncInvoiceKeepsTotals | services/storageService.ts:218-225 | Synchronising never changes any card's invoice total for any month |
| Invoices.HoldersAfterAction | services/storageService.ts:230-262 | After a removal no holder of the key remains; after a replace or append the invoice is the only holder |
| Invoices.SyncInvoiceReconciles | services/storageService.ts:210-264 | Starting from at most one holder, the card and month end up reconciled: exactly one correct invoice when the total is positive, and none otherwise |
| Invoices.SyncInvoicePreservesUniqueKeys | services/storageService.ts:230-262 | No invoice key gains a second holder |
| Invoices.SyncInvoiceIdempotent | services/storageService.ts:210-264 | Calling the synchronisation twice with the same inputs gives the same store as calling it once |
| Invoices.SyncInvoiceKeepsReconciled | services/storageService.ts:210-264 | A (card, month) pair that was reconciled stays reconciled after synchronising any other pair |
| Invoices.BillingWindow | services/storageService.ts:273-278 | 25 months, from the month before today to 23 months after, with the month index normalised into the year |
| Invoices.Jobs | services/storageService.ts:269-279 | Every linked card is paired with every month of the window, and only window months appear |
| Invoices.SyncJobsReconciles | services/storageService.ts:275-280 | After the sequence of calls, every (card, month) pair visited is reconciled |
| Invoices.SyncAllReconcilesWindow | services/storageService.ts:267-281 | After `syncAllLinkedInvoices`, every linked card is reconciled for every month of the window. User entries are unchanged and invoice keys stay unique |
| Invoices.InvoiceIdAsWrittenCollides | services/storageService.ts:246 | The source's invoice id omits the year, so two months of the window twelve months apart get the same id at one instant |
| Invoices.InvoiceIdDistinctInWindow | services/storageService.ts:246 | With the year added, the 25 months of the window get 25 distinct ids |
| Lifecycle.Upsert | services/storageService.ts:366-368 | Looking up the saved id finds the new entry; only the first entry with that id is replaced, in place; otherwise the entry is appended; every other position is unchanged |
| Lifecycle.UpsertKeepsIdsUnique | services/storageService.ts:366-368 | Ids that were unique stay unique |
| Lifecycle.UpsertStores | services/storageService.ts:366-368 | The upserted entry is in the list afterwards |
| Lifecycle.SharedIdUpsertOverwrites | services/storageService.ts:366-368 | Two invoices with one id and distinct keys: saving an edit of the second overwrites the first, so one key gets two holders, the other none, and invoice keys are no longer unique |
| Lifecycle.MarkBillsPaid | services/storageService.ts:380-385 | Every bill named like the category (ignoring case) is paid for the month; every other flag and every other bill is unchanged |
| Lifecycle.ClearFirstBill | services/storageService.ts:437-442 | Only the first bill named like the category changes, and only in its flag for the month, which becomes false. Its id, name, due day and the other months' flags are kept. With no such bill nothing changes |
| Lifecycle.SaveTransaction | services/storageService.ts:364-397 | The user entries are those of the upserted list. Saving an entry that is not a card purchase, an invoice included, leaves exactly the upserted list. A card purchase changes only the holders of its billing month's invoice key; every other key keeps the holders of the upserted list. An expense with a known category marks the bills named like it paid for its month; otherwise the bills are unchanged. Methods, categories, accounts and closing days are unchanged |
| Lifecycle.SaveTransactionStores | services/storageService.ts:366-368 | A saved entry is in the store afterwards, whether a user entry or an invoice that is not a card purchase |
| Lifecycle.SaveTransactionReconciles | services/storageService.ts:393-396 | Saving a card purchase leaves its card reconciled for the purchase's billing month |
| Lifecycle.ReleaseBill | services/storageService.ts:420-445 | The first bill named like the category is marked unpaid for the month only when the entry is an expense with a known category and no other user entry of that category remains in that calendar month |
| Lifecycle.DeleteTransaction | services/storageService.ts:399-451 | An unknown id changes nothing. Otherwise the user entries are those that survive the cascade filter, or the id filter. When the deleted entry is not a card purchase, an invoice included, the list is exactly what the filter keeps. The bills are those after releasing the first matching bill's flag for the deleted entry's month when no survivor of that category remains in it. Only transactions and bills change |
| Lifecycle.DeleteTransactionKeeps | services/storageService.ts:406-414 | A user entry survives exactly when it was present and was not removed: with a cascade, not in the same group with an index at least the deleted one's; otherwise, not carrying the deleted id |
| Lifecycle.DeleteCascadeRemovesLaterInstallments | services/storageService.ts:406-410 | A cascading delete keeps a group member exactly when its index is lower than the deleted one's |
| Lifecycle.DeleteTransactionReconciles | services/storageService.ts:447-450 | Deleting a card purchase leaves every linked card reconciled over the window |
| Lifecycle.ToggleBillPayment | services/storageService.ts:159-167 | The first bill with the id has its flag for the month negated, with an absent flag counting as unpaid; all else is unchanged; an unknown id changes nothing |
| Lifecycle.ToggleBillPaymentTwice | services/storageService.ts:159-167 | Toggling twice restores every bill's paid status for every month |
| Lifecycle.DeleteCategory | services/storageService.ts:300-306 | The delete succeeds exactly when no transaction uses the category; it then removes every category with that id and nothing else; a refusal changes nothing |
| Lifecycle.DeletePaymentMethod | services/storageService.ts:326-332 | As for categories, on the payment-method reference |
| Lifecycle.DeleteBankAccount | services/storageService.ts:351-357 | As for categories, on the bank-account reference |
| Lifecycle.DeletesLeaveNoDanglingReference | services/storageService.ts:300-357 | After a successful delete, no transaction refers to the deleted id |
| Summaries.AccountSummaryOf | services/storageService.ts:457-477 | The confirmed balance is the initial balance plus paid income minus paid expense on the account. The current balance counts every entry except projected synthetic invoices |
| Summaries.BankAccountSummaries | services/storageService.ts:453-479 | One summary per account, in account order |
| Summaries.BalanceGap | services/storageService.ts:459-476 | Current minus confirmed balance is exactly the user's projected income minus projected expense on the account |
| Summaries.ProjectedInvoiceMovesNoBalance | services/storageService.ts:467-471 | Inserting a projected synthetic invoice anywhere changes neither balance |
| Summaries.MonthlySummaryOf | services/storageService.ts:481-511 | Totals are over user entries whose effective date is in the month; confirmed totals count paid entries; the balances are the differences |
| Summaries.MonthlyTotalsSplit | services/storageService.ts:487-499 | Each total is the confirmed total plus the projected user entries of that kind |
| Summaries.MonthlySummaryUnchangedBySync | services/storageService.ts:482-485 | Synchronising the invoices never changes any monthly summary, so card purchases are not counted twice |
| Summaries.AddAllBuckets | services/storageService.ts:524-536 | The bucket fold gives one bucket per category met, each named after its category or "Outros", holding that category's total and paid total; bucket totals add up to the expenses' sum |
| Summaries.SortRowsSorted | services/storageService.ts:545 | The rows come out ordered by decreasing total |
| Summaries.SortRowsPermutes | services/storageService.ts:545 | Sorting is a permutation of the rows |
| Summaries.CategorySummary | services/storageService.ts:513-546 | The summary is sorted by decreasing total and is a permutation of one row per bucket of the month's user expenses |
| Summaries.CategorySummaryTotal | services/storageService.ts:520-545 | The row totals add up to the month's user expenses |
| Summaries.CategorySummaryPercentages | services/storageService.ts:543 | When there are expenses, the percentages add up to 100 |
| Currency.ParseCurrencyBR | services/formatters.ts:12-19 | Never negative; it is the cents the digits spell, divided by 100; empty or digit-free text reads as 0 |
| Currency.ParseIgnoresNonDigits | services/formatters.ts:15 | Inserting digit-free text anywhere never changes the amount |
| Currency.ParseReadsWrittenCents | services/formatters.ts:15-18 | A written number of cents, with digit-free decoration around it, reads back as that many cents divided by 100 |
| TransactionForm.Build | components/Transactions.tsx:88-137 | The form is rejected exactly when a category, account or method is missing or the value is not positive. A card purchase with more than one installment, when not editing, yields exactly n entries whose values sum to the total; it crashes only when the date is empty. Any other submission yields one entry with the whole value |
| TransactionForm.InstallmentsNumbered | components/Transactions.tsx:100-117 | Installment i has index i+1 of n, the shared group, the id `group-i`, the description suffixed with "(i+1/n)", the date i months on with roll-over, and the value total/n |
| TransactionForm.InstallmentsSumToValue | components/Transactions.tsx:111 | The n installment values add up to the purchase value |
| TransactionForm.InstallmentIdsDistinct | components/Transactions.tsx:105 | Distinct positions get distinct ids |
| TransactionForm.InstallmentsUniqueIds | components/Transactions.tsx:100-105 | No two installments of a purchase share an id, so saving one never overwrites another |
| TransactionForm.InstallmentDate | components/Transactions.tsx:101-102 | Installment i falls exactly i months on, on the same day, when that day exists in that month; otherwise it rolls one month further to an earlier day |
| TransactionForm.InstallmentMonthsDistinct | components/Transactions.tsx:101-102 | For a purchase on day 28 or earlier, installment i is on the same day i months later, and no two installments share a month |
| TransactionForm.InstallmentDatesRollOver | components/Transactions.tsx:101-102 | From 31 January 2026 the second and third installments both fall in March, on the 3rd and 31st |
| TransactionForm.Single | components/Transactions.tsx:121-137 | The entry keeps the edited entry's id and installment fields, or takes the fresh id with none. The date defaults to today, the status defaults to paid, and the value is the form's |
| TransactionForm.Submit | components/Transactions.tsx:88-137 | Nothing is saved when the form is rejected, or when the installment path crashes on a missing date. Methods, categories, accounts and closing days are unchanged |
| TransactionForm.SubmitStoresEntries | components/Transactions.tsx:98-137 | Every entry a valid submission builds is in the store afterwards. That includes an edited invoice whose payment method is not a card |
| TransactionForm.SubmitSingleStores | components/Transactions.tsx:125-136 | A submission that does not split stores its single entry, unless it is an invoice on a card |
| TransactionForm.EditRoundTrip | components/Transactions.tsx:156-162 | Loading an entry into the form and submitting it unchanged rebuilds exactly that entry |
| TransactionForm.ChoosePaymentMethod | components/Transactions.tsx:75-86 | The method is set; the account becomes the method's linked account when it has one and is otherwise kept; no other field changes |
| TransactionForm.Flip | components/Transactions.tsx:172 | The new status always differs from the old one |
| TransactionForm.ToggleStatusStores | components/Transactions.tsx:171-175 | For a user entry, or an invoice that is not a card purchase, the saved entry differs from the original only in its status, which is flipped; toggling the result again stores the original |
| DueDates.GetStatus | components/DueDates.tsx:94-112 | 'PAGO' exactly when the flag for the viewed year and current month is set. Otherwise the status is 'ATRASADO' in a past year and 'A VENCER' in a future one. In the current year, comparing the due day with today's day gives 'ATRASADO', 'VENCENDO HOJE' or 'A VENCER' |
| DueDates.GetStatusOnlyReadsCurrentMonth | components/DueDates.tsx:98 | Payments recorded for other months never change the status |
| DueDates.ToggleSettles | components/DueDates.tsx:98-100 | Toggling the current month's payment moves a bill into or out of 'PAGO' |
| DueDates.CountsPartition | components/DueDates.tsx:114-117 | The four status counts add up to the number of bills |
| DueDates.Summarize | components/DueDates.tsx:114-118 | Each count is the number of bills with that status, TOTAL is the number of bills, and the four counts add up to TOTAL |
| CsvBackup.Escape | services/storageService.ts:56 | The escaped value is wrapped in quotes and contains the same characters other than quotes as the value |
| CsvBackup.UnquoteEscape | services/storageService.ts:56 | Unescaping an escaped value gives back the value |
| CsvBackup.CollapseDoubled | services/storageService.ts:110 | Collapsing doubled quotes undoes the doubling |
| CsvBackup.Unquote | services/storageService.ts:109-111 | A value not both starting and ending with a quote is kept as it is |
| CsvBackup.Trim | services/storageService.ts:99 | The result neither starts nor ends with whitespace, and text without leading or trailing whitespace is kept |
| CsvBackup.Split | services/storageService.ts:88 | There is at least one piece, and no piece contains the separator |
| CsvBackup.SplitJoin | services/storageService.ts:61-88 | Splitting the joined lines gives back the lines when none contains the separator |
| CsvBackup.IndexOf | services/storageService.ts:102 | The first position of the character, or -1 exactly when it is absent |
| CsvBackup.ImportLine | services/storageService.ts:98-116 | Existing keys stay present; only backup keys are added; keys outside the backup set keep their values |
| CsvBackup.ImportRow | services/storageService.ts:98-116 | Importing the row written for a backup key stores exactly that key's value |
| CsvBackup.Import | services/storageService.ts:82-118 | The file is refused exactly when its first line lacks the header; on import, keys outside the backup set are untouched |
| CsvBackup.Restore | services/storageService.ts:52-58 | The restored store holds the exported value of every backup key that had a non-empty value, and the old value of every other key |
| CsvBackup.ExportImportRoundTrip | services/storageService.ts:48-118 | Importing an export restores every non-empty backup key's value and leaves every other key as it was, when no value contains a newline |

## Left out

- Storage and files: localStorage reads and writes, `JSON.parse` and `stringify`, FileReader, Blob, download links and `alert` are not modelled. The store is an in-memory record, and the CSV side works on a `map<string, string>` of the stored strings.
- Formatting: `Intl.NumberFormat` and `Intl.DateTimeFormat` (`formatCurrencyBR` and the month label in the invoice description) are foreign library formatting. The label comes from `Env.monthLabel`.
- Clock: `Date.now()` and `new Date()` are the `Env` parameter. One submission of installments uses one clock reading for every save it makes.
- Dates: `toISOString` and the `"T00:00:00"` parsing of stored date strings are not modelled. Dates are local calendar triples, so the UTC shift of `toISOString` in installment dates is not modelled either.
- Floating point: money is `real`, so the rounding of `value / n`, of the sums, and of `parseFloat` on long digit strings is not modelled.
- `getYearlyHistory`: it only maps `getMonthlySummary` over twelve months with a locale label.
- UI code: the `filteredTransactions` list, `handleDelete`, `saveRecurringBill`, `deleteRecurringBill`, the `save*` entity upserts and the rest of the React components are outside this model.
- Summaries.CategorySummary: the order of `Object.values` is modelled as first appearance. JavaScript lists integer-like keys first in ascending order, which only changes the order of rows with equal totals before the stable sort.
- Ledger.IsCreditCardName: lower-casing covers ASCII and Latin-1 letters only, which is what the Portuguese names need.
- TransactionForm.Build: the description is always a string. The source prints "undefined" for a missing description in installment labels.
- TransactionForm.Build: `numInstallments` is an integer. A value that parsed to NaN is not modelled, and neither is a non-numeric `value`.
- Invoices.SyncAction: a re-synchronisation replaces an existing invoice with a projected one, even if the user had marked it paid. The model does the same and states no more about it.
- Invoice date text: the invoice's `${year}-${MM}-05` date string is modelled as the calendar date it denotes. The year is not padded, so the text is not a valid date before year 1000.
- DueDates.CountStatus: it is stated as a count bounded by the number of bills. The connection to `summary` is made by `DueDates.Summarize` and `DueDates.CountsPartition`.
- CsvBackup.ExportImportRoundTrip: values containing a newline are excluded, because `split('\n')` would cut such a row in two. Stored JSON never contains a raw newline.
- Invoices.SyncStep: a new invoice's id includes the year (`Invoices.InvoiceId`), unlike the source's `Invoices.InvoiceIdAsWritten`, so `Invoices.SyncAllLinkedInvoices` and everything built on it model the corrected program; see "## Findings".
- Lifecycle.SaveTransaction: its re-synchronisation builds new invoice ids with the year as well, so it and `Lifecycle.DeleteTransaction` model the corrected program, not the source's colliding ids.
- Lifecycle.DeleteTransaction: after deleting a card purchase, the invoices are stated only as reconciled over the window (`Lifecycle.DeleteTransactionReconciles`); invoices of months outside the window are not framed.
- TransactionForm.ToggleStatusStores: an invoice whose payment method has been made a card is not covered, because the re-synchronisation of that card's billing month may replace it. The same holds for `Lifecycle.SaveTransactionStores`.
- TransactionForm.SubmitStoresEntries: an edited invoice whose payment method is a card is not covered, for the same reason.
- CsvBackup.Trim: stated by its two ends, not as a full characterisation of `trim`. The round trip only meets rows whose key and value start and end with characters that are not whitespace.

## Findings

| source | as written | input that shows it | evidently intended | confidence | as-written member | corrected member |
|---|---|---|---|---|---|---|
| services/storageService.ts:246 | A new invoice's id is `invoice-${Date.now()}-${cardId}-${month}`, without the year | `syncAllLinkedInvoices` on 10 January 2026 creates invoices for December 2025 and December 2026 in the same millisecond, both with month 11, so they share one id. Toggling the December 2026 invoice's status (components/Transactions.tsx:171-175) saves it through `saveTransaction`, whose `findIndex` by id (services/storageService.ts:366-367) overwrites the December 2025 invoice: the December 2026 key then has two holders and the December 2025 key none | One id per (card, month, year): the year is part of the id, as it is of the notes key | medium, not executed | Invoices.InvoiceIdAsWrittenCollides, Lifecycle.SharedIdUpsertOverwrites | Invoices.InvoiceIdDistinctInWindow, Lifecycle.UpsertKeepsIdsUnique |

The model's synchronisation builds new invoice ids with `Invoices.InvoiceId`, which includes the year. `Invoices.InvoiceIdAsWritten` is the source's form. `Invoices.InvoiceIdInjective` shows the corrected id determines its month and year.
