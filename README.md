# Household ledger: stores, dispatch and aggregation rules

A couple's household ledger keeps one kind of record: a `Transaction`. Each record has an id, a `YYYY-MM-DD` date and a whole amount. It also has a category, a merchant, the household member who spent or earned it, a type (income or expense) and an optional memo. This project models in Dafny the parts of the application that hold these records and compute figures from them.

- **Spreadsheet store** (`sheet_store.dfy`). A `Transactions` sheet has a header row and one record per row in columns A–H. A hidden `Metadata` sheet holds a version marker in A1. The module models:
  - reads with a month-prefix filter;
  - append;
  - update and delete of the first row whose column A holds the id;
  - the version marker write, with its create-the-sheet-and-retry path.

  The remote service is a value `Backend`. The class `Spreadsheet` holds the same state in fields and changes it in place. Each write method is proved equal to an outcome function over `Backend`.
- **Browser store** (`local_store.dfy`). A list that may be stored locally, with three sample records shown until the first write. Reads hand out the sample array itself, so a first add or update also changes that array. The model keeps this aliasing.
- **Server boundary and facade** (`server_actions.dfy`, `data_access.dfy`).
  - One environment flag routes every call to the spreadsheet or to the browser store.
  - With the flag off, the server answers reads with two fixed records and ignores writes.
  - After a write that returns normally, the server marks `/` and `/stats` for re-rendering.
  - The facade keeps no cache: every read reaches the selected store.
- **Category table** (`categories.dfy`). Sixteen configured categories, looked up by name with a default colour and icon.
- **Statistics** (`stats_chart.dfy`, `stats_page.dfy`, `calendar_keys.dfy`).
  - Per-category sums of one type, ranked by value, with last month's value and a palette colour for each bar.
  - The records behind one bar, newest first.
  - The consumer filter and the two monthly totals.
  - The percentage change and the month keys.
- **Day list** (`transaction_list.dfy`). The records of one day, the day's income and expense totals, and the sign shown before each amount.
- **Add/edit form** (`add_page.dfy`). The digits-only amount field and the record a save builds. Also: add versus update, the edit-mode load, and the page state around saving and deleting.

Shared definitions live in small modules:
- `Seqs`: `filter`, `findIndex` and a stable descending sort;
- `Numerals`: decimal numerals, `Number(...)` and `toString()` on whole numbers;
- `Ledger`: the record, the month filter and amount sums;
- `Wrappers`: `Option`.

A record saved to the spreadsheet and listed again is not identical in every field. Provided the sheet keeps the written cells as text, an absent memo comes back as `''` (`SheetStore.DecodeEncode`). The sheet may instead reinterpret what it receives; see `SheetStore.DecodeEncode` under "Left out". On a sheet that lacks even its header row, the appended row becomes row 1 and is never listed (`SheetStore.AddToBlankSheetIsNotListed`).

## Model

| member | source | states |
|---|---|---|
| Seqs.Filter | src/lib/googleSheetsService.ts:121-123 | `filter` keeps exactly the elements that satisfy the predicate, drawn from the input |
| Seqs.FilterConcat | src/lib/mockFinanceService.ts:69 | filtering distributes over concatenation, so relative order is kept |
| Seqs.FilterCommute | src/app/stats/page.tsx:39-53 | the consumer filter and the type filter can be applied in either order |
| Seqs.IndexWhere | src/lib/googleSheetsService.ts:179 | `findIndex` is -1 exactly when nothing matches, else the first matching position |
| Seqs.FindIndex | src/lib/mockFinanceService.ts:59 | the scanning loop returns the position `IndexWhere` specifies |
| Seqs.SortDesc | src/components/StatsChart.tsx:53-54 | the comparator sort yields a non-increasing permutation of its input |
| Seqs.SortDescStable | src/components/StatsChart.tsx:53-54 | the sort is stable, as JavaScript's `sort` is: the elements sharing a key keep their input order |
| Seqs.SameElements | src/components/StatsChart.tsx:116-120 | a permutation has the same members as the original |
| Numerals.NumberValue | src/lib/googleSheetsService.ts:98 | `Number` on a digit string is its decimal value; `''` is 0; a text without a leading `-` never reads as negative |
| Numerals.NumberValueDomain | src/lib/googleSheetsService.ts:98 | exactly digit strings and a `-` followed by digits read as numbers, the latter as the negated digits; every other text reads as no number |
| Numerals.IntToString | src/app/add/page.tsx:64 | `toString()` starts with `-` exactly for negative numbers and is all digits otherwise |
| Numerals.NumberValueOfIntToString | src/lib/googleSheetsService.ts:138 | writing an amount as text and reading it back gives the same amount |
| Numerals.NatToDigitsLength | src/app/stats/page.tsx:24 | a number below 10^k has at most k digits, so a four-digit year pads to exactly four |
| Numerals.PaddedValue | src/app/stats/page.tsx:24 | zero-padding a numeral keeps its value |
| Ledger.ByMonth | src/lib/googleSheetsService.ts:121-125 | without a month all records come back; with one, the filter by date prefix |
| Ledger.ByMonthMembers | src/lib/mockFinanceService.ts:44-46 | a record is in a month read exactly when it is stored and its date starts with the month |
| Ledger.SumAmounts | src/app/stats/page.tsx:47-49 | the `reduce` sum starts at 0, so an empty list sums to 0; non-negative amounts give a non-negative sum |
| Ledger.SumAmountsConcat | src/app/stats/page.tsx:47-49 | the amount sum of two lists joined is the sum of their sums |
| Ledger.SumAmountsSplit | src/app/stats/page.tsx:47-53 | the records a filter keeps and those it drops sum to the whole |
| Ledger.KindTotal | src/components/TransactionList.tsx:19-20 | the sum of one type's amounts: 0 when no record has that type; between 0 and the whole sum when amounts are non-negative |
| Ledger.IncomeAndExpenseMakeTotal | src/components/TransactionList.tsx:19-20 | income sum plus expense sum is the sum of all amounts |
| SheetStore.EncodeRow | src/lib/googleSheetsService.ts:134-145 | a record is written as eight cells in column order A–H |
| SheetStore.DecodeRow | src/lib/googleSheetsService.ts:95-104 | the memo is always present; the type is income exactly when column G reads `income`; a digit amount cell gives its decimal value |
| SheetStore.DecodeEncode | src/lib/googleSheetsService.ts:95-104 | decoding a written row gives the record back, with an absent memo made `''` |
| SheetStore.DecodeAllSlice | src/lib/googleSheetsService.ts:95 | mapping rows to records commutes with taking a slice |
| SheetStore.DecodeAllConcat | src/lib/googleSheetsService.ts:95 | mapping rows to records distributes over joining two row lists |
| SheetStore.GetLastUpdated | src/lib/googleSheetsService.ts:24-35 | the marker is `'initial'` without credentials, on failure, without the sheet or when the cell is empty; it is never empty |
| SheetStore.FetchTransactionsData | src/lib/googleSheetsService.ts:75-112 | `[]` without credentials, on failure, or with no data row; otherwise record k is sheet row k+2 decoded |
| SheetStore.GetSheetTransactions | src/lib/googleSheetsService.ts:114-126 | the read throws exactly when a non-empty month is given, the data is reachable and some data row has no date cell (`t.date.startsWith` on `undefined`); otherwise all records in sheet order, or exactly those whose date starts with the month |
| SheetStore.WritesKeepDates | src/lib/googleSheetsService.ts:134-145 | every row the store writes has a date cell, so adds, updates and deletes never make a month read start throwing |
| SheetStore.Locate | src/lib/googleSheetsService.ts:171-180 | the first row whose column A holds the id, header included; 'No data found' exactly when column A is empty, 'Transaction not found' exactly when no row matches |
| SheetStore.AfterVersionUpdate | src/lib/googleSheetsService.ts:38-72 | the marker becomes `now`; a missing sheet is created hidden and 1×1 first; rows and configuration never change |
| SheetStore.AddOutcome | src/lib/googleSheetsService.ts:128-162 | success exactly with credentials and a reachable service; then one row is appended after all rows and the marker moves; a failure leaves everything unchanged |
| SheetStore.UpdateOutcome | src/lib/googleSheetsService.ts:164-211 | success exactly when the id is located; then only that row is overwritten and the marker moves; failures name their error and change nothing |
| SheetStore.DeleteOutcome | src/lib/googleSheetsService.ts:213-258 | success exactly when the id is located; then exactly that row is removed, the others keep their order, and the marker moves; failures change nothing |
| SheetStore.Spreadsheet.WriteVersionCell | src/lib/googleSheetsService.ts:42-47 | the A1 write succeeds exactly when the service answers and the sheet exists, and only then changes the cell |
| SheetStore.Spreadsheet.AddMetadataSheet | src/lib/googleSheetsService.ts:51-60 | the sheet is added hidden and 1×1 exactly when it was missing and the service answers |
| SheetStore.Spreadsheet.UpdateLastUpdated | src/lib/googleSheetsService.ts:38-72 | the write, create and retry sequence ends in the state `AfterVersionUpdate` describes |
| SheetStore.Spreadsheet.AddSheetTransaction | src/lib/googleSheetsService.ts:128-162 | status and new state are those of `AddOutcome` |
| SheetStore.Spreadsheet.UpdateSheetTransaction | src/lib/googleSheetsService.ts:164-211 | status and new state are those of `UpdateOutcome` |
| SheetStore.Spreadsheet.DeleteSheetTransaction | src/lib/googleSheetsService.ts:213-258 | status and new state are those of `DeleteOutcome` |
| SheetStore.ListingAfterAdd | src/lib/googleSheetsService.ts:147-154 | once the header exists, a month read throws after the add exactly when it threw before; otherwise it lists the old records followed by the new one if it is in that month |
| SheetStore.AppendKeepsThrow | src/lib/googleSheetsService.ts:121-123 | appending a dated row neither causes nor cures a throwing month read |
| SheetStore.AddToBlankSheetIsNotListed | src/lib/googleSheetsService.ts:147-154 | on a sheet without a header row the appended record is not listed |
| SheetStore.ListingAfterUpdate | src/lib/googleSheetsService.ts:179-202 | the full record list changes only at the updated record's position, which now holds the new record; a match on the header row changes no record |
| SheetStore.DecodeAfterRowUpdate | src/lib/googleSheetsService.ts:182-202 | overwriting sheet row i overwrites record i-1 and nothing else; overwriting the header row changes no record |
| SheetStore.DecodeAfterRowRemoval | src/lib/googleSheetsService.ts:233-249 | removing a data row removes exactly its record from the decoded list |
| SheetStore.ListingAfterDelete | src/lib/googleSheetsService.ts:228-249 | the full record list loses exactly the deleted record, and the rest keep their order |
| SheetStore.DeletedRowsLackId | src/lib/googleSheetsService.ts:228-249 | with unique ids, no row holds the id after a delete |
| SheetStore.DeleteRemovesId | src/lib/googleSheetsService.ts:228-249 | with unique ids, no record of any month read that succeeds carries the id after a delete |
| SheetStore.RowsWithoutIdDecodeWithoutId | src/lib/googleSheetsService.ts:95-96 | when no row's column A holds a non-empty id, no decoded record carries it |
| SheetStore.HasIdMatchesColumnA | src/lib/googleSheetsService.ts:179 | a row matches exactly when it has column A and that cell equals the id; the empty id matches no row, since the `A:A` read returns an empty cell A as a row without it |
| SheetStore.UpdateIdempotent | src/lib/googleSheetsService.ts:179-202 | updating twice with the same record leaves the rows as one update does |
| LocalStore.MockData | src/lib/mockFinanceService.ts:5-33 | three expense records without memo, with distinct ids |
| LocalStore.BrowserStore.constructor | src/lib/mockFinanceService.ts:5-47 | the store starts with the window flag, the sample records of today and whatever local storage holds |
| LocalStore.BrowserStore.GetTransactions | src/lib/mockFinanceService.ts:35-47 | without a window the sample array unfiltered; otherwise the stored or sample list, month-filtered by prefix |
| LocalStore.BrowserStore.AddTransaction | src/lib/mockFinanceService.ts:49-54 | stores the old list followed by the record; before the first write the sample array grows too; every month read gains the record exactly when it falls in the month |
| LocalStore.BrowserStore.UpdateTransaction | src/lib/mockFinanceService.ts:56-64 | replaces only the first record with the id; with an unknown id, nothing is written |
| LocalStore.BrowserStore.DeleteTransaction | src/lib/mockFinanceService.ts:66-71 | stores every record whose id differs, even when none matched; no stored record has the id afterwards |
| LocalStore.UpdateByIdIdempotent | src/lib/mockFinanceService.ts:59-61 | the record stays at the found position, and replacing it again changes nothing |
| LocalStore.DeleteKeepsOthers | src/lib/mockFinanceService.ts:69 | records with other ids all survive a delete; an unknown id leaves the list as it was |
| ServerActions.ServerMock | src/app/actions.ts:33-52 | two expense records dated today, whatever the month |
| ServerActions.SheetsEnabled | src/app/actions.ts:8 | the sheet is used exactly when the variable is set to the text `'true'`; unset, or any other text, leaves it off |
| ServerActions.ActionBoundary.constructor | src/app/actions.ts:8 | the flag is `'true'` compared once at start-up; nothing has been revalidated |
| ServerActions.ActionBoundary.FetchTransactions | src/app/actions.ts:10-54 | flag on: the sheet read with the same month, a throw included; flag off: the fixed records |
| ServerActions.ActionBoundary.CreateTransaction | src/app/actions.ts:56-65 | flag on: the sheet add; flag off: success with no store changed; both pages revalidated exactly when it returns normally |
| ServerActions.ActionBoundary.UpdateTransactionAction | src/app/actions.ts:67-75 | same shape with the sheet update |
| ServerActions.ActionBoundary.DeleteTransactionAction | src/app/actions.ts:77-85 | same shape with the sheet delete |
| DataAccess.DataService.constructor | src/lib/dataService.ts:5 | the facade flag and the server flag come from the same variable and agree |
| DataAccess.DataService.GetTransactions | src/lib/dataService.ts:7-13 | server mode reads the sheet with the month unchanged, throw included, and never serves the fixed records; otherwise the browser store answers and never throws |
| DataAccess.DataService.AddTransaction | src/lib/dataService.ts:15-21 | server mode: the sheet add, browser store untouched, `/` and `/stats` revalidated exactly when it returns normally; otherwise the browser add, sheet untouched and nothing revalidated |
| DataAccess.DataService.UpdateTransaction | src/lib/dataService.ts:23-29 | routed the same way to the sheet update or the browser update, with the same revalidation and untouched-store guarantees |
| DataAccess.DataService.DeleteTransaction | src/lib/dataService.ts:31-37 | routed the same way to the sheet delete or the browser delete, with the same revalidation and untouched-store guarantees |
| Categories.Find | src/lib/categoryConfig.ts:29 | key lookup: absent exactly when no entry has the key |
| Categories.FindEntry | src/lib/categoryConfig.ts:7-24 | with distinct keys, looking up an entry's key gives that entry's configuration |
| Categories.TableWellFormed | src/lib/categoryConfig.ts:7-24 | sixteen entries with distinct keys, each entry's name equal to its key |
| Categories.Categories | src/lib/categoryConfig.ts:26 | one configuration per configured name, in table order, each the one a lookup of its name finds, with no name listed twice |
| Categories.GetCategoryColor | src/lib/categoryConfig.ts:28-30 | a configured category's colour, else `#94a3b8` |
| Categories.GetCategoryIcon | src/lib/categoryConfig.ts:32-34 | a configured category's icon, else the label emoji |
| Categories.CategoryMatchesLookups | src/lib/categoryConfig.ts:26-34 | a listed category's colour and icon lookups give its own configuration's colour and icon |
| StatsChart.CategorySum | src/components/StatsChart.tsx:40-43 | a category's value is never negative when the amounts are not |
| StatsChart.CategoriesInOrder | src/components/StatsChart.tsx:40-43 | every record's category is a key of the accumulator |
| StatsChart.CategoriesDistinct | src/components/StatsChart.tsx:40-43 | the accumulator lists each category once |
| StatsChart.CategoriesFromRecords | src/components/StatsChart.tsx:40-43 | every listed category is some record's category |
| StatsChart.CategoriesInOrderSnoc | src/components/StatsChart.tsx:41 | a record adds its category as a new last key only when it is unseen |
| StatsChart.CategorySumSnoc | src/components/StatsChart.tsx:41 | a record adds its amount to its own category only |
| StatsChart.CategorySumAbsent | src/components/StatsChart.tsx:58 | a category no record has sums to 0 |
| StatsChart.CategorySumIsFilteredSum | src/components/StatsChart.tsx:40-43 | a category's value is the amount sum of exactly its records |
| StatsChart.AccumulateStep | src/components/StatsChart.tsx:41-42 | one reduce step keeps the accumulator equal to the per-category sums of the records seen |
| StatsChart.SumByCategory | src/components/StatsChart.tsx:40-43 | the reduce loop yields keys in first-appearance order and each key's sum |
| StatsChart.RankedEntries | src/components/StatsChart.tsx:53-54 | every key once, non-increasing in value, each with its own sum; keys with equal sums keep their first-appearance order, which fixes their palette colours |
| StatsChart.SumOrZeroIsCategorySum | src/components/StatsChart.tsx:58 | the previous-month lookup with a 0 default is that category's previous sum |
| StatsChart.ChartOf | src/components/StatsChart.tsx:53-108 | exactly the current categories, ranked; bar i carries that category, its sum this month, its sum last month (0 when absent) and `palette[i mod 12]` |
| StatsChart.BuildChart | src/components/StatsChart.tsx:37-110 | the chart of the records of the viewed type only, in both months |
| StatsChart.OtherTypeOnlyGivesNoBars | src/components/StatsChart.tsx:112-114 | records of the other type only give no bar, though the no-data message needs an empty list |
| StatsChart.DateKey | src/components/StatsChart.tsx:119 | the ordering key of a date is never negative |
| StatsChart.DateKeyOfDayKey | src/components/StatsChart.tsx:119 | a `yyyy-MM-dd` day key orders as the number yyyyMMdd |
| StatsChart.LaterDayHasLargerKey | src/components/StatsChart.tsx:119 | a later day, in a later month or later in the same month, has a larger key, so it is listed first |
| StatsChart.CategoryTransactions | src/components/StatsChart.tsx:116-120 | exactly the records of that type and category, as a permutation, newest date first, and the records of one date in their stored order |
| CalendarKeys.PreviousMonth | src/app/stats/page.tsx:25 | the month just before: one less in month count, January goes to December of the year before |
| CalendarKeys.MonthKey | src/app/stats/page.tsx:24 | `yyyy-MM` is seven characters for years 0–9999 |
| CalendarKeys.ParseMonthKey | src/app/stats/page.tsx:24 | a key that parses names a month from 1 to 12 |
| CalendarKeys.MonthKeyRoundTrip | src/app/stats/page.tsx:24-25 | every month's key parses back to that month |
| CalendarKeys.DayKey | src/components/TransactionList.tsx:17 | a day key starts with its month key |
| StatsPage.ConsumerFilter | src/app/stats/page.tsx:39-45 | `'전체'` keeps every record; any other choice keeps exactly that member's records |
| StatsPage.StatsTotals | src/app/stats/page.tsx:39-53 | with `'전체'` both totals are the month's sums of the viewed type; a member with no record in a month totals 0 there; non-negative amounts give non-negative totals |
| StatsPage.MemberSplit | src/app/stats/page.tsx:39-49 | a member's total plus everyone else's is the unfiltered total |
| StatsPage.MemberTotalsSplitAll | src/app/stats/page.tsx:39-53 | the same split holds for both months' totals, since one filter is applied to both |
| StatsPage.PercentageChange | src/app/stats/page.tsx:55-57 | 0 unless last month's total is positive; otherwise positive exactly on a rise, negative exactly on a fall, never below -100 for non-negative totals |
| StatsPage.KeysOfDifferentMonthsDiffer | src/app/stats/page.tsx:24-25 | different months read different keys |
| StatsPage.MonthKeys | src/app/stats/page.tsx:24-25 | for years up to 9999 the two keys differ and the comparison key reads back as the month just before |
| TransactionList.DailyTransactions | src/components/TransactionList.tsx:17 | exactly the records dated on the day |
| TransactionList.DayRecordsAreInMonthRead | src/components/TransactionList.tsx:17 | every record of a day is among the read of that day's month |
| TransactionList.DailyTotalsCoverTheDay | src/components/TransactionList.tsx:19-20 | `totalIncome + totalExpense` is the sum of all the day's amounts |
| TransactionList.AmountSign | src/components/TransactionList.tsx:50 | `+` exactly for income, `-` exactly for expense |
| TransactionList.ViewOf | src/components/TransactionList.tsx:17-38 | the placeholder exactly when no record has the day's date; otherwise exactly the day's records, in stored order |
| AddPage.DefaultForm | src/app/add/page.tsx:21-29 | date from the query or today; category 식비, consumer 함께, type expense, other fields empty |
| AddPage.DefaultFormNeedsInput | src/app/add/page.tsx:172 | a fresh form cannot be submitted until amount and merchant are filled |
| AddPage.DigitsOnly | src/app/add/page.tsx:167 | only digits remain, and every digit typed remains |
| AddPage.DigitsOnlyIdempotent | src/app/add/page.tsx:167 | a digit string passes unchanged; filtering twice is filtering once |
| AddPage.DigitsOnlyKeepsOrder | src/app/add/page.tsx:167 | the digits of a joined text are the digits of each part, in order |
| AddPage.AmountInputDecidesSubmit | src/app/add/page.tsx:164-172 | after typing into the amount field the form can be submitted exactly when date and merchant are filled and the typed text holds a digit |
| AddPage.FormFromRecord | src/app/add/page.tsx:60-69 | the amount text reads back as the record's amount; an absent memo becomes `''` |
| AddPage.SubmitRequest | src/app/add/page.tsx:81-96 | update exactly with an id param, add otherwise; the edited id or the fresh one; a digit amount's value; every field copied |
| AddPage.UnchangedEditRoundTrip | src/app/add/page.tsx:81-90 | saving a loaded record without edits sends that record back, memo made present |
| AddPage.MonthOf | src/app/add/page.tsx:58 | `substring(0, 7)` is a prefix of the date, seven characters long when the date is |
| AddPage.LoadedRecordIsInItsMonth | src/app/add/page.tsx:57-59 | a stored record is among the month read of its own date, so edit mode finds it |
| AddPage.TransactionForm.constructor | src/app/add/page.tsx:20-29 | the form starts from the defaults, not saving |
| AddPage.TransactionForm.EditAmount | src/app/add/page.tsx:164-170 | the amount field becomes the digits of the typed text |
| AddPage.TransactionForm.LoadForEdit | src/app/add/page.tsx:31-75 | with id and date, the first record with the id in that month is copied into the form; a read that throws, a missing record or a missing parameter keep the form |
| AddPage.TransactionForm.Submit | src/app/add/page.tsx:77-100 | nothing happens while saving or with a required field empty; otherwise the request goes to the store, the page is left exactly when it returns normally, and in server mode the browser store is untouched and both pages are revalidated exactly on success |
| AddPage.TransactionForm.Delete | src/app/add/page.tsx:242-252 | in edit mode and after confirmation the id is deleted, the page is left exactly when that returns normally, and revalidation follows the same rule as a save |

## Left out

- The spreadsheet client, authentication, HTTP requests and logging. The service is a state value plus one flag saying whether requests currently reach it, so every request either succeeds or fails alike.
- `SheetStore.FetchTransactionsData`: the `unstable_cache` wrapper and its 3600-second revalidation are not modelled. The read is a plain read of the current rows. The version marker is modelled, but not its role as a cache key.
- `SheetStore.DeleteOutcome`: the delete always hits the `Transactions` sheet. The code's `sheetId: 0` assumption about which sheet that is is not modelled.
- `SheetStore.DecodeRow`: a cell missing from a short row is `undefined` in the code and `''` here. So a missing amount is NaN in the code and 0 here, and a missing category groups under `"undefined"` in the statistics but under `''` here. An amount cell that `NumberValue` does not read is 0 here; see the next line. A type cell other than `income` reads as expense. Fractional amounts are not modelled.
- `Numerals.NumberValue`: text other than an optional `-` followed by digits reads as no number, so the amount becomes 0. The code gives NaN for most such text. For other spellings of a number, such as `+5`, ` 12 `, `5.0`, `1e3` or `0x10`, it gives the number JavaScript parses (5, 12, 5, 1000, 16). Amounts the store writes itself are always plain numerals and read back exactly (`Numerals.NumberValueOfIntToString`).
- `SheetStore.GetSheetTransactions`: of the failures a missing cell causes, only the month read over a row without a date is modelled (it throws). Other code that touches `undefined` fields of such records is not.
- `SheetStore.DecodeEncode`: rows are appended and updated with `USER_ENTERED`, so the sheet parses each cell as if typed: a date-like text may come back as a serial number and a numeric memo as a number. The round trip assumes the sheet keeps the written text verbatim.
- Amounts are unbounded integers; JavaScript's floating-point number precision is not modelled.
- `revalidatePath` is modelled only as the list of paths it received.
- `DataAccess.DataService.AddTransaction`, `UpdateTransaction`, `DeleteTransaction`: in browser mode they state the new browser list, the sheet and the revalidation log, not the sample array, which the browser store's own contracts describe.
- Local storage is an optional list: JSON serialisation and the 500 ms `setTimeout` delay are left out.
- Clocks and randomness are parameters: the ISO timestamp written to the marker (`now`), today's date in sample records and form defaults (`today`), and `crypto.randomUUID` (`freshId`).
- `toFixed(1)`, `toLocaleString` and the bar chart rendering. The amount field's thousands separators are not modelled; `EditAmount` receives the whole text the field holds after the keystroke.
- `StatsPage.PercentageChange`: the real-valued change before `toFixed(1)` rounding; the rounded text and the ▲/▼ choice made on it are not modelled.
- `StatsChart.CategoryTransactions`: `new Date(...)` is modelled as a `YYYY-MM-DD` ordering key, with every malformed date treated alike.
- `StatsChart.SumByCategory`: JavaScript objects list integer-like keys first; category names are assumed not to be integer-like. Keys such as `__proto__` are not modelled either.
- `CalendarKeys.MonthKey`: date-fns behaviour for years outside 0–9999 is not modelled.
- The form's other field edits (date, category, merchant, consumer, type, memo) are plain assignments with no rule and are not separate operations.
- Concurrency: the two reads the statistics page issues together, asynchronous effects racing user input, and several writers to one sheet.
- `src/components/Calendar.tsx`, `src/app/page.tsx`, the layout, navigation, skeleton and animation components, `src/components/PasswordProtection.tsx` and `src/lib/config.ts` are not part of this model.
