# Bill reminder: a verified model of the bill engine

The bill tracker keeps bills (a name, an amount, a due instant, a free-text
category, notes, a creation instant and a recurrence in months) and payment
history entries. Around that data it has a small engine. This project models
the engine as pure functions over immutable datatypes and proves what it
does:

- **Renewal.** A recurring bill is renewed by moving its due date forward one
  period with `java.util.Calendar.add(MONTH, n)` semantics.
- **Swipe and edit dispatch.** The main list decides what a swipe on a bill
  and a bill returned from the editor become.
- **Reminders.** A background job is meant to select the bills due within
  three days, overdue bills included, and posts one notification per selected
  bill. As written, its 64-bit difference `dueDate - now` can wrap and miss a
  bill due more than 2^63 ms before now (see "## Findings").
- **Aggregations.**
  - the per-category totals and the sum and count of the current month;
  - the fixed-costs screen's sections and its average monthly cost;
  - the statistics pie chart.
- **List rows.** A row marks a bill overdue and colours it by category, and
  the list has two ways of comparing rows.
- **The editor.** It maps spinner positions to frequencies and validates a
  bill before it is saved.
- **Stores.** The two tables are modelled with their query semantics: sorted
  listing, range query, group-by sum, insert-or-replace, update, delete,
  newest-first history and clearing.

Instants are milliseconds since the Unix epoch, held as unbounded `int`.
Amounts are exact `real`s. The current instant is the parameter `now`.
Where the source's 64-bit and 32-bit integer widths matter, the wrap-around
is written out (`Base.WrapLong`, `Base.LongToInt`):

- in the worker's difference `dueDate - now`;
- in the notification key `id.toInt()`.

Modules follow the source files:

| module | source |
|---|---|
| `Model` | `Bill.kt`, `PaymentHistory.kt` |
| `BillStore` | `BillDao.kt` |
| `HistoryStore` | `HistoryDao.kt` |
| `MainScreen` | `MainActivity.kt` |
| `Reminder` | `BillReminderWorker.kt` |
| `ViewModel` | `BillViewModel.kt` |
| `Subscriptions` | `SubscriptionsActivity.kt` |
| `Stats` | `StatsActivity.kt` |
| `Adapter` | `BillAdapter.kt` |
| `Editor` | `AddEditBillActivity.kt` |

Four modules support the others:

- `Calendar`: the proleptic Gregorian calendar, a fixed-offset zone and month addition.
- `Categories`: the English and Polish category tokens, colours and display names.
- `Base`: `Option`, an order-preserving `Filter`, a stable `SortBy`, and the integer wrap-arounds.

Three behaviours of the code are easy to assume otherwise; the model follows the code:

- **Renewal.** It adds exactly one period, with no catch-up over missed cycles, and writes no history entry (`MainActivity.kt:154-166`).
- **Editing.** Saving an edited bill builds a new `Bill` without passing `createdAt`. An edit therefore resets `createdAt` to the moment of saving (`AddEditBillActivity.kt:131-139`). `Editor.EditRoundTrip` states this.
- **Payment history.** Nothing in the screens calls `addToHistory`. The snapshot it builds is modelled (`ViewModel.AddToHistory`), but no swipe path records a payment.

## Model

| member | source | states |
|---|---|---|
| `Model.NewBill` | app/src/main/java/com/example/billreminder/data/model/Bill.kt:10-20 | a bill built with the defaulted arguments left out is unsaved (id 0), has empty notes, is one-time (frequency 0, not recurring) and is stamped with the current instant |
| `Model.MonthsOf` | app/src/main/java/com/example/billreminder/data/model/Bill.kt:18 | a recurrence is stored as 0..12 months, and as 0 exactly when it is one-time |
| `Model.RecurrenceOf` | app/src/main/java/com/example/billreminder/data/model/Bill.kt:18-19 | a stored frequency has a meaning exactly when it is 0, 1, 3, 6 or 12, and the meaning encodes back to it |
| `Model.RecurrenceRoundTrip` | app/src/main/java/com/example/billreminder/data/model/Bill.kt:18 | encoding a recurrence as months and decoding it gives it back |
| `Model.SumAmountsConcat` | app/src/main/java/com/example/billreminder/ui/viewmodel/BillViewModel.kt:93-98 | the running sum of amounts over a concatenation is the sum of the parts |
| `Model.SumAmountsPositive` | app/src/main/java/com/example/billreminder/ui/viewmodel/BillViewModel.kt:93-98 | positive amounts sum to a positive total unless there are none |
| `BillStore.Insert` | app/src/main/java/com/example/billreminder/data/dao/BillDao.kt:25-26 | insert-or-replace: id 0 gets a key above every key ever handed out and not in use; another id is used as given and replaces the row holding it; the table stays keyed uniquely and every other key's row is unchanged |
| `BillStore.InsertedRowsValid` | app/src/main/java/com/example/billreminder/data/dao/BillDao.kt:25-26 | the rows after an insert-or-replace are still uniquely keyed, with no key 0 and none above the new last id |
| `BillStore.InsertedRowsLookup` | app/src/main/java/com/example/billreminder/data/dao/BillDao.kt:25-26 | after an insert-or-replace the stored key finds the stored bill and every other key finds what it found before |
| `BillStore.Update` | app/src/main/java/com/example/billreminder/data/dao/BillDao.kt:28-29 | the row with the bill's key becomes the bill if there is one, nothing else changes, and no row appears when the key is absent |
| `BillStore.Delete` | app/src/main/java/com/example/billreminder/data/dao/BillDao.kt:31-32 | the row with the bill's key is gone and every other key still finds the same row |
| `BillStore.AllBills` | app/src/main/java/com/example/billreminder/data/dao/BillDao.kt:15-16 | the listing is a permutation of the stored rows, in ascending due date |
| `BillStore.BillsInRange` | app/src/main/java/com/example/billreminder/data/dao/BillDao.kt:18-19 | a bill is listed exactly when it is stored and `start <= dueDate <= end`; the result is a sub-multiset of the table |
| `BillStore.CategoryStats` | app/src/main/java/com/example/billreminder/data/dao/BillDao.kt:22-23 | one row per category occurring in the table, no category twice, each row's total the sum of that category's amounts over all bills |
| `BillStore.GroupTotals` | app/src/main/java/com/example/billreminder/ui/viewmodel/BillViewModel.kt:53-54 | grouping by the category text gives distinct categories, exactly those occurring, each with its category's sum, and the totals add up to the sum of all amounts |
| `BillStore.AddTo` | app/src/main/java/com/example/billreminder/ui/viewmodel/BillViewModel.kt:53-54 | folding one bill into the totals adds its amount to its own category only (creating that row if needed) and keeps categories distinct |
| `BillStore.Find` | app/src/main/java/com/example/billreminder/data/dao/BillDao.kt:28-32 | lookup by primary key finds a row carrying that key, or reports that no row carries it |
| `BillStore.FindUnique` | app/src/main/java/com/example/billreminder/data/dao/BillDao.kt:28-32 | with distinct keys, the row found under a key is the one row with that key |
| `BillStore.Remove` | app/src/main/java/com/example/billreminder/data/dao/BillDao.kt:31-32 | removing a key keeps exactly the rows with other keys, still keyed uniquely |
| `BillStore.Replace` | app/src/main/java/com/example/billreminder/data/dao/BillDao.kt:28-29 | rows with the bill's key become the bill, the others stay in place |
| `BillStore.HasCategoryIndex` | app/src/main/java/com/example/billreminder/data/dao/BillDao.kt:8-11 | a category has a stats row exactly when some row at an index carries it |
| `BillStore.NoRowNoTotal` | app/src/main/java/com/example/billreminder/data/dao/BillDao.kt:8-11 | a category without a row has total 0 |
| `BillStore.BillCategories` | app/src/main/java/com/example/billreminder/data/dao/BillDao.kt:22-23 | the set of categories is exactly the categories of the listed bills |
| `BillStore.CategorySum` | app/src/main/java/com/example/billreminder/data/dao/BillDao.kt:22-23 | a category's sum is the sum of the amounts of the bills filtered to that category |
| `HistoryStore.Insert` | app/src/main/java/com/example/billreminder/data/dao/HistoryDao.kt:11-12 | a plain insert is refused exactly when an explicit id is already taken; otherwise it appends one entry (with a fresh key for id 0) and leaves the existing ones as they were |
| `HistoryStore.AllHistory` | app/src/main/java/com/example/billreminder/data/dao/HistoryDao.kt:14-16 | the history is a permutation of the stored entries, latest payment first |
| `HistoryStore.Clear` | app/src/main/java/com/example/billreminder/data/dao/HistoryDao.kt:18-20 | clearing leaves no entry and keeps the key counter |
| `HistoryStore.InsertThenList` | app/src/main/java/com/example/billreminder/data/dao/HistoryDao.kt:11-16 | after inserting a new entry the listing holds exactly the old entries and the new one |
| `HistoryStore.ClearThenList` | app/src/main/java/com/example/billreminder/data/dao/HistoryDao.kt:14-20 | after clearing, the listing is empty |
| `Calendar.AddMonths` | app/src/main/java/com/example/billreminder/ui/MainActivity.kt:158 | `Calendar.add(MONTH, n)`: the month index moves by exactly n, the day of month is kept when the target month has it and is otherwise pinned to that month's last day |
| `Calendar.AddMonthsLater` | app/src/main/java/com/example/billreminder/ui/MainActivity.kt:125-131 | adding a positive number of months gives a strictly later date |
| `Calendar.AddZeroMonths` | app/src/main/java/com/example/billreminder/ui/MainActivity.kt:158 | adding zero months changes nothing |
| `Calendar.AddMonthsDrift` | app/src/main/java/com/example/billreminder/ui/MainActivity.kt:158 | two renewals of 31 January give 29 March, not 31 March: the pinned day is not restored |
| `Calendar.AddMonthsLeapYears` | app/src/main/java/com/example/billreminder/ui/MainActivity.kt:158 | pinning follows the Gregorian leap-year rule (2023, 2000, 2100, 29 February plus a year) |
| `Calendar.DaysInMonth` | app/src/main/java/com/example/billreminder/ui/MainActivity.kt:158 | every month has 28 to 31 days |
| `Calendar.EpochDayMonotone` | app/src/main/java/com/example/billreminder/ui/MainActivity.kt:156-161 | an earlier date has a smaller day number |
| `Calendar.EpochDayInjective` | app/src/main/java/com/example/billreminder/ui/MainActivity.kt:156-161 | distinct dates have distinct day numbers |
| `Calendar.DateOfEpochDay` | app/src/main/java/com/example/billreminder/ui/MainActivity.kt:156 | every day number has a valid date that numbers back to it |
| `Calendar.EpochDayRoundTrip` | app/src/main/java/com/example/billreminder/ui/MainActivity.kt:156-161 | numbering a date and converting the number back gives the date |
| `Calendar.ToLocal` | app/src/main/java/com/example/billreminder/ui/MainActivity.kt:156 | reading an instant's wall clock gives a valid date and time of day that convert back to the instant |
| `Calendar.LocalRoundTrip` | app/src/main/java/com/example/billreminder/ui/MainActivity.kt:156-161 | converting a wall-clock reading to an instant and reading it back gives the reading |
| `Calendar.MonthOf` | app/src/main/java/com/example/billreminder/ui/viewmodel/BillViewModel.kt:47-49 | the calendar month of an instant is 1..12 |
| `Calendar.AddMonthsToInstant` | app/src/main/java/com/example/billreminder/ui/MainActivity.kt:155-161 | the instant-level month addition moves the wall-clock date by `AddMonths`, keeps the time of day, is strictly later for n > 0 and the identity for n = 0 |
| `Calendar.ShiftedWallClock` | app/src/main/java/com/example/billreminder/ui/MainActivity.kt:156-161 | the wall clock at the shifted instant reads the shifted date at the unchanged time of day |
| `Calendar.ShiftedInstantOrder` | app/src/main/java/com/example/billreminder/ui/MainActivity.kt:125-131 | shifting by a positive number of months gives a later instant, by zero months the same instant |
| `Calendar.AdvancedWallClockIsLater` | app/src/main/java/com/example/billreminder/ui/MainActivity.kt:155-161 | a wall-clock reading moved forward a positive number of months, same time of day, is a later instant |
| `Categories.Classify` | app/src/main/java/com/example/billreminder/ui/StatsActivity.kt:133-140 | a raw category is recognised only as the canonical category whose English or Polish token it is |
| `Categories.ClassifyTokens` | app/src/main/java/com/example/billreminder/ui/StatsActivity.kt:134-138 | both tokens of every canonical category are recognised as that category |
| `Categories.CategoryColor` | app/src/main/java/com/example/billreminder/ui/StatsActivity.kt:84-90 | a recognised category gets its canonical colour, anything else `bill_other` |
| `Categories.CategoryColorTokens` | app/src/main/java/com/example/billreminder/ui/adapter/BillAdapter.kt:86-92 | English and Polish tokens get the same colour; "Other", "Inne" and unknown text get `bill_other` |
| `Categories.LocalizedCategoryName` | app/src/main/java/com/example/billreminder/ui/StatsActivity.kt:132-141 | a recognised category shows its translated name, an unrecognised one its raw text unchanged |
| `Categories.LocalizedNameTokens` | app/src/main/java/com/example/billreminder/ui/StatsActivity.kt:134-138 | English and Polish tokens of a category get the same display name |
| `MainScreen.RenewBill` | app/src/main/java/com/example/billreminder/ui/MainActivity.kt:154-166 | a renewed bill differs only in its due date, which is the old one plus `frequency` calendar months at the same time of day, and is strictly later for a recurring bill |
| `MainScreen.Apply` | app/src/main/java/com/example/billreminder/ui/viewmodel/BillViewModel.kt:80-82 | a store request keeps both tables valid; bill requests never touch the history and never fail; a payment record never touches the bills |
| `MainScreen.ApplyAll` | app/src/main/java/com/example/billreminder/ui/viewmodel/BillViewModel.kt:80-82 | running requests in order keeps both tables valid |
| `MainScreen.OnEditorResult` | app/src/main/java/com/example/billreminder/ui/MainActivity.kt:44-51 | a returned bill is inserted exactly when its id is 0, and updated otherwise |
| `MainScreen.EditorResultEffect` | app/src/main/java/com/example/billreminder/ui/MainActivity.kt:44-51 | a new bill lands under a fresh key; an edited bill replaces its stored row; no other bill and no history entry changes |
| `MainScreen.OnSwipe` | app/src/main/java/com/example/billreminder/ui/MainActivity.kt:121-150 | a swipe issues at most one request, never a history write or insert; renewal only for a recurring bill on the positive button; a one-time bill is only deleted or kept |
| `MainScreen.RenewEffect` | app/src/main/java/com/example/billreminder/ui/MainActivity.kt:125-141 | renewing a stored recurring bill replaces it by the renewed copy (same id, later due date), leaves the other bills and the history unchanged |
| `MainScreen.OneTimeSwipeEffect` | app/src/main/java/com/example/billreminder/ui/MainActivity.kt:142-149 | a swipe on a one-time bill either deletes just that bill or changes nothing, and never writes history |
| `MainScreen.RenewalAddsOnePeriod` | app/src/main/java/com/example/billreminder/ui/MainActivity.kt:154-166 | a monthly bill due 15 January 2024 is next due 15 February 2024, with no catch-up |
| `Reminder.LookaheadValue` | app/src/main/java/com/example/billreminder/worker/BillReminderWorker.kt:30 | three days are 259200000 ms |
| `Reminder.SelectDueForNotice` | app/src/main/java/com/example/billreminder/worker/BillReminderWorker.kt:33-37 | the intended selection: a bill is selected exactly when it is listed and due no later than now plus three days; every overdue bill is selected; the selection is a sub-multiset of the list |
| `Reminder.SelectDueForNoticeAsWritten` | app/src/main/java/com/example/billreminder/worker/BillReminderWorker.kt:33-37 | as written, a bill is selected exactly when the 64-bit wrapped difference `dueDate - now` is at most three days |
| `Reminder.AsWrittenMissesOverdue` | app/src/main/java/com/example/billreminder/worker/BillReminderWorker.kt:34-36 | a bill due at the earliest 64-bit instant is overdue at instant 1 but not selected as written, while the intended selection takes it |
| `Reminder.WrapBelowLongMin` | app/src/main/java/com/example/billreminder/worker/BillReminderWorker.kt:34 | one below the smallest Long wraps around to the largest |
| `Reminder.AsWrittenAgrees` | app/src/main/java/com/example/billreminder/worker/BillReminderWorker.kt:34-36 | whenever the difference fits in 64 bits, the written and the intended conditions agree |
| `Reminder.WindowBoundary` | app/src/main/java/com/example/billreminder/worker/BillReminderWorker.kt:36 | a bill due exactly three days ahead is selected, one due a millisecond later is not |
| `Reminder.ReminderWindowExample` | app/src/main/java/com/example/billreminder/worker/BillReminderWorker.kt:33-37 | bills due a day ago and in two days are selected, in order; one due in ten days is not |
| `Reminder.SelectionIgnoresFrequencyAndCategory` | app/src/main/java/com/example/billreminder/worker/BillReminderWorker.kt:33-37 | changing a bill's recurrence or category does not change whether it is selected |
| `Reminder.Notifications` | app/src/main/java/com/example/billreminder/worker/BillReminderWorker.kt:39-43 | one notification per selected bill, in order, keyed by the low 32 bits of the id (a 32-bit value), with the bill's name and amount |
| `Reminder.DistinctKeys` | app/src/main/java/com/example/billreminder/worker/BillReminderWorker.kt:41 | bills with distinct ids that fit in 32 bits get distinct notification keys |
| `Reminder.KeyCollision` | app/src/main/java/com/example/billreminder/worker/BillReminderWorker.kt:41 | ids 2^32 apart share a key |
| `Reminder.DoWork` | app/src/main/java/com/example/billreminder/worker/BillReminderWorker.kt:21-46 | the job as written reports success, posts as many notifications as the wrapping test selects, and posts exactly the notifications of the bills whose wrapped `dueDate - now` is at most three days |
| `Reminder.DoWorkCorrected` | app/src/main/java/com/example/billreminder/worker/BillReminderWorker.kt:32-44 | the job with the intended test reports success and posts exactly the notifications of the bills due no later than three days from now, overdue ones included |
| `Reminder.NotificationsOf` | app/src/main/java/com/example/billreminder/worker/BillReminderWorker.kt:39-43 | the posted notifications are exactly those of the selected bills, each with its key, name and amount |
| `Reminder.DoWorkAgrees` | app/src/main/java/com/example/billreminder/worker/BillReminderWorker.kt:32-44 | when every bill's `dueDate - now` fits in 64 bits, the job as written posts the same notifications, in the same order, as the intended job |
| `Reminder.DoWorkMissesOverdue` | app/src/main/java/com/example/billreminder/worker/BillReminderWorker.kt:32-44 | for a bill due at the smallest Long instant and now = 1, the job as written posts nothing while the intended job posts the bill's reminder |
| `Base.WrapLong` | app/src/main/java/com/example/billreminder/worker/BillReminderWorker.kt:34 | a 64-bit subtraction's result is in the Long range and congruent to the exact difference modulo 2^64, and equal to it when it fits |
| `Base.LongToInt` | app/src/main/java/com/example/billreminder/worker/BillReminderWorker.kt:41 | `Long.toInt()` keeps the low 32 bits: the key is in the Int range, congruent to the id modulo 2^32, and equal to it when it fits |
| `ViewModel.CurrentMonthBills` | app/src/main/java/com/example/billreminder/ui/viewmodel/BillViewModel.kt:45-50 | a bill is kept exactly when its due date is in the month and year of now |
| `ViewModel.CategoryStatsForMonth` | app/src/main/java/com/example/billreminder/ui/viewmodel/BillViewModel.kt:39-60 | one row per category of the current month's bills, no category twice, no category without a bill, each total the sum of that category's current-month amounts |
| `ViewModel.SummaryOfMonthBills` | app/src/main/java/com/example/billreminder/ui/viewmodel/BillViewModel.kt:85-101 | the running sum and count are the sum and number of the bills due in the current month |
| `ViewModel.CalculateMonthlyStats` | app/src/main/java/com/example/billreminder/ui/viewmodel/BillViewModel.kt:85-101 | the loop returns the sum of the amounts and the number of the bills due in the current month and year |
| `ViewModel.EmptySummary` | app/src/main/java/com/example/billreminder/ui/viewmodel/BillViewModel.kt:90-91 | an empty list gives (0.0, 0) |
| `ViewModel.TotalsMatchSummary` | app/src/main/java/com/example/billreminder/ui/viewmodel/BillViewModel.kt:45-54 | the category totals add up to the monthly summary's sum |
| `ViewModel.DeviceZoneMonth` | app/src/main/java/com/example/billreminder/ui/viewmodel/BillViewModel.kt:40-49 | with the zone's calendar month as the month test, a bill is kept exactly when its due instant's wall-clock year and month are now's, and the category totals still add up to the summary's sum |
| `ViewModel.SummaryConcat` | app/src/main/java/com/example/billreminder/ui/viewmodel/BillViewModel.kt:93-98 | the month's sum and count over two lists of bills are the sums of the two lists' sums and counts |
| `ViewModel.MonthSumPositive` | app/src/main/java/com/example/billreminder/ui/viewmodel/BillViewModel.kt:93-98 | with positive amounts, the month's sum is positive exactly when some bill is due in the current month |
| `ViewModel.TokensGroupedSeparately` | app/src/main/java/com/example/billreminder/ui/viewmodel/BillViewModel.kt:53 | an English and a Polish token of one category give two separate rows |
| `ViewModel.BothInMonth` | app/src/main/java/com/example/billreminder/ui/viewmodel/BillViewModel.kt:45-50 | two bills of the current month are both kept, in order |
| `ViewModel.GroupTwo` | app/src/main/java/com/example/billreminder/ui/viewmodel/BillViewModel.kt:53-59 | two bills of different categories give two rows, in first-seen order |
| `ViewModel.AddToHistory` | app/src/main/java/com/example/billreminder/ui/viewmodel/BillViewModel.kt:70-78 | the snapshot is unsaved, copies the bill's name, amount and category, and is stamped with the current instant |
| `ViewModel.SnapshotIsCopy` | app/src/main/java/com/example/billreminder/data/model/PaymentHistory.kt:7-13 | the snapshot is the same whatever the bill's id, due date, notes or recurrence: it refers to no bill |
| `Subscriptions.DistributeBills` | app/src/main/java/com/example/billreminder/ui/SubscriptionsActivity.kt:65-70 | each section holds exactly the bills of frequency 1, 3, 6 or 12, taken from the list; bills of any other frequency are in no section |
| `Subscriptions.BucketsPartition` | app/src/main/java/com/example/billreminder/ui/SubscriptionsActivity.kt:67-70 | the sections together hold as many bills as there are bills with one of the four periods |
| `Subscriptions.SectionVisibility` | app/src/main/java/com/example/billreminder/ui/SubscriptionsActivity.kt:79-89 | a section is hidden exactly when it is empty |
| `Subscriptions.HiddenIffNoBillOfPeriod` | app/src/main/java/com/example/billreminder/ui/SubscriptionsActivity.kt:79-89 | a section is hidden exactly when no bill has its period |
| `Subscriptions.MonthlyCost` | app/src/main/java/com/example/billreminder/ui/SubscriptionsActivity.kt:98-104 | for frequency 1, 3, 6 or 12 the monthly cost times the frequency is the amount; any other frequency costs 0; a non-negative amount gives a cost between 0 and the amount |
| `Subscriptions.CalculateMonthlyAverage` | app/src/main/java/com/example/billreminder/ui/SubscriptionsActivity.kt:92-106 | the loop returns the sum of the monthly costs; with non-negative amounts it lies between 0 and the plain sum of amounts |
| `Subscriptions.CostBounded` | app/src/main/java/com/example/billreminder/ui/SubscriptionsActivity.kt:95-106 | with non-negative amounts the average lies between 0 and the sum of amounts |
| `Subscriptions.TotalMonthlyCostConcat` | app/src/main/java/com/example/billreminder/ui/SubscriptionsActivity.kt:95-106 | the average of a concatenation is the sum of the averages |
| `Subscriptions.TotalIsSumOfSections` | app/src/main/java/com/example/billreminder/ui/SubscriptionsActivity.kt:47-50 | the average over all bills equals the sum of the four sections' averages |
| `Subscriptions.OneTimeAddsNothing` | app/src/main/java/com/example/billreminder/ui/SubscriptionsActivity.kt:103 | a one-time bill adds nothing to the average |
| `Subscriptions.EmptyAverage` | app/src/main/java/com/example/billreminder/ui/SubscriptionsActivity.kt:95 | no bills give an average of 0 |
| `Subscriptions.YearlyExample` | app/src/main/java/com/example/billreminder/ui/SubscriptionsActivity.kt:93-94 | a yearly bill of 1200 counts as 100 a month |
| `Subscriptions.MixedExample` | app/src/main/java/com/example/billreminder/ui/SubscriptionsActivity.kt:97-106 | yearly 1200, quarterly 300, monthly 50 and one-time 999 give 250 a month |
| `Stats.LoadChartData` | app/src/main/java/com/example/billreminder/ui/StatsActivity.kt:68-128 | one slice and one colour per positive row: slice and colour `i` are those of the `i`-th positive row, so there are exactly as many slices as positive rows, in row order; every slice is a positive row's display name and total with its category's colour, every positive row has a slice; the chart is cleared exactly when no row is positive, exactly when the total is 0; the total is the sum over the positive rows, at least the sum of all rows, equal to it when none is negative |
| `Stats.SlicesFromRows` | app/src/main/java/com/example/billreminder/ui/StatsActivity.kt:74-91 | every slice is the display name and positive total of some row, paired with that row's colour |
| `Stats.ChartSlices` | app/src/main/java/com/example/billreminder/ui/StatsActivity.kt:74-95 | the chart's slices and colours are those of the positive rows, one each and in row order, and the chart is cleared exactly when no row is positive |
| `Stats.ChartTotal` | app/src/main/java/com/example/billreminder/ui/StatsActivity.kt:71-82 | the shown total is the sum of the positive rows, 0 exactly when the chart is cleared, at least the sum of all rows and equal to it when none is negative |
| `Stats.SlicesInRowOrder` | app/src/main/java/com/example/billreminder/ui/StatsActivity.kt:74-91 | slice `i` is the `i`-th kept row's display name and total, and colour `i` is its category's colour |
| `Stats.PositiveRowsDrawn` | app/src/main/java/com/example/billreminder/ui/StatsActivity.kt:74-95 | every positive row has its slice, and there are slices exactly when some row is positive |
| `Stats.AllPositiveDrawsEveryRow` | app/src/main/java/com/example/billreminder/ui/StatsActivity.kt:74-126 | when every total is positive, the chart draws a slice and colour for every row, in row order, and shows the sum of all totals |
| `Stats.PositiveSum` | app/src/main/java/com/example/billreminder/ui/StatsActivity.kt:74-82 | summing only the positive rows gives at least the sum of all rows, and the same sum when no row is negative |
| `Stats.SumTotalsPositive` | app/src/main/java/com/example/billreminder/ui/StatsActivity.kt:82 | positive totals sum to a positive value unless there are none |
| `Stats.AddToPositive` | app/src/main/java/com/example/billreminder/ui/viewmodel/BillViewModel.kt:53-54 | folding a positive amount into positive totals keeps every total positive |
| `Stats.GroupTotalsPositive` | app/src/main/java/com/example/billreminder/ui/viewmodel/BillViewModel.kt:53-54 | grouping bills of positive amounts gives only positive totals |
| `Stats.ChartCoversMonth` | app/src/main/java/com/example/billreminder/ui/StatsActivity.kt:68-128 | with positive amounts the chart has a slice for every current-month category, is cleared exactly when the month has no bill, and its total is the month's sum |
| `Adapter.Bind` | app/src/main/java/com/example/billreminder/ui/adapter/BillAdapter.kt:39-95 | a row shows the bill's name and amount, is marked overdue exactly when the due date is strictly before today, and takes its category's colour (`bill_other` when unrecognised) |
| `Adapter.OverdueBoundary` | app/src/main/java/com/example/billreminder/ui/adapter/BillAdapter.kt:64-66 | a bill due exactly now is not overdue, one due a millisecond earlier is |
| `Adapter.OverdueIsReminded` | app/src/main/java/com/example/billreminder/ui/adapter/BillAdapter.kt:66 | every bill a row marks overdue is kept by the intended selection, and by the job as written whenever `dueDate - now` fits in a Long |
| `Adapter.RowColorTokens` | app/src/main/java/com/example/billreminder/ui/adapter/BillAdapter.kt:86-92 | rows of the English and the Polish token of a category have the same colour |
| `Adapter.ContentsImplyItem` | app/src/main/java/com/example/billreminder/ui/adapter/BillAdapter.kt:98-101 | equal contents imply the same item; two unsaved bills with different names are the same item with different contents |
| `Adapter.RenewedRowChanges` | app/src/main/java/com/example/billreminder/ui/MainActivity.kt:131-132 | a renewed row is the same item with changed contents |
| `Editor.IndexOf` | app/src/main/java/com/example/billreminder/ui/AddEditBillActivity.kt:49 | `indexOf` is -1 exactly when the value is absent, and otherwise its first position |
| `Editor.FrequencyAt` | app/src/main/java/com/example/billreminder/ui/AddEditBillActivity.kt:118-119 | every spinner position gives a meaningful frequency, and 0 only at the first position |
| `Editor.FrequencyIndexRoundTrip` | app/src/main/java/com/example/billreminder/ui/AddEditBillActivity.kt:20 | the position of the frequency at a position is that position |
| `Editor.IndexFrequencyRoundTrip` | app/src/main/java/com/example/billreminder/ui/AddEditBillActivity.kt:52-53 | every recurrence is offered, at a position that maps back to it |
| `Editor.SpinnerAfterLoad` | app/src/main/java/com/example/billreminder/ui/AddEditBillActivity.kt:48-53 | an offered value is selected at its position; an unoffered value leaves the selection unchanged |
| `Editor.TrimStart` | app/src/main/java/com/example/billreminder/ui/AddEditBillActivity.kt:113 | dropping leading whitespace gives a suffix whose dropped part is whitespace and which does not start with whitespace |
| `Editor.TrimEnd` | app/src/main/java/com/example/billreminder/ui/AddEditBillActivity.kt:113 | dropping trailing whitespace gives a prefix whose dropped part is whitespace and which does not end with whitespace |
| `Editor.Trim` | app/src/main/java/com/example/billreminder/ui/AddEditBillActivity.kt:113-116 | `trim` gives a slice of the text surrounded only by whitespace, with no whitespace at either edge |
| `Editor.TrimIdempotent` | app/src/main/java/com/example/billreminder/ui/AddEditBillActivity.kt:113-116 | trimming twice is trimming once |
| `Editor.NoEdgeWhitespaceTrimsToSelf` | app/src/main/java/com/example/billreminder/ui/AddEditBillActivity.kt:113-116 | a text without whitespace at its edges is its own trim |
| `Editor.TrimEmptyIffBlank` | app/src/main/java/com/example/billreminder/ui/AddEditBillActivity.kt:113-124 | the trim is empty exactly when the text is all whitespace |
| `Editor.NewForm` | app/src/main/java/com/example/billreminder/ui/AddEditBillActivity.kt:17-18 | a fresh form edits no bill (id 0), has the due date preset to now and both spinners at their first entry |
| `Editor.LoadBill` | app/src/main/java/com/example/billreminder/ui/AddEditBillActivity.kt:39-54 | editing fills the form with the bill's id, name, shown amount, notes and due date, and selects its category and frequency when offered |
| `Editor.SaveBill` | app/src/main/java/com/example/billreminder/ui/AddEditBillActivity.kt:112-144 | save is refused for a blank name first, then for an amount that does not parse or is not positive; a saved bill has the form's id, trimmed name and notes, the parsed positive amount, the chosen date, category and frequency, and is created now |
| `Editor.BlankNameRefused` | app/src/main/java/com/example/billreminder/ui/AddEditBillActivity.kt:121-124 | a name of whitespace only is refused even when the amount is valid |
| `Editor.EditRoundTrip` | app/src/main/java/com/example/billreminder/ui/AddEditBillActivity.kt:39-54 | loading a bill and saving it unchanged gives the bill back with `createdAt` reset to now, when its values are offered, trimmed and survive show-then-parse |
| `Editor.UnofferedValuesReplaced` | app/src/main/java/com/example/billreminder/ui/AddEditBillActivity.kt:48-53 | a bill whose category or frequency is not offered is saved with the spinner's current entry instead |

## Left out

- `BillDatabase.kt` is not part of this model. It is a lazily created singleton with locking and destructive migration, which is persistence plumbing.
- `BillRepository.kt` is not part of this model. It only delegates to the two stores, and it does not declare the `allHistory`, `recurringBills` and `addToHistory` members or the two-argument constructor that `BillViewModel.kt` uses. The view-model is modelled against the store operations directly.
- `getAllBillsSync`: the worker calls this query, but `BillDao.kt` does not declare it. The worker's input is "all stored bills".
- `recurringBills`: the fixed-costs screen observes this list, but nothing defines it. `Subscriptions.DistributeBills` and `Subscriptions.CalculateMonthlyAverage` take any list. `Subscriptions.TotalIsSumOfSections` shows that bills outside the four periods add nothing anyway.
- `addToHistory`: no screen calls it, so no modelled path records a payment. The snapshot it builds is modelled. The store write is `MainScreen.Apply` on `RecordPayment`.
- `HistoryAdapter.kt` and `HistoryActivity.kt` only format dates and currency and set visibility.
- Formatting and locale are left out:
  - `NumberFormat`, `SimpleDateFormat` and the `%.2f` and `%.0f` formatters;
  - the language choice;
  - string resources.

  A display name is the `Label` datatype: a canonical category (its translation is a resource) or the raw text.
- Editor.SaveBill: Kotlin's `toDoubleOrNull` also accepts "NaN", "Infinity" and literals too large for a double (such as "1e400", which parses to infinity), and a NaN amount passes the `amount <= 0` refusal because every comparison with NaN is false; the `parse` parameter returns only finite reals, so the model does not save a NaN or infinite amount, which the source can.
- Floating point is left out. Amounts are exact reals, so IEEE-754 rounding in sums and divisions is not modelled. Neither is the `toFloat` of a pie slice's value.
- Parsing and showing amounts are parameters:
  - `toDoubleOrNull` is the parameter `parse: string -> Option<real>`;
  - `Double.toString` is the parameter `show`.
- The category spinner's entries come from the `categories_array` resource. They are the parameter `categories`.
- Time zones: renewal uses a zone with a fixed UTC offset. Daylight-saving transitions are not modelled.
- The aggregations take the instant-to-month conversion as the parameter `monthOf`, and the current instant as `now`.
- `Calendar.AddMonths`: does not model the Julian calendar before the 1582 cutover or eras. Dates are proleptic Gregorian.
- `Calendar.AddMonthsToInstant`: does not model `int` overflow of the month count in `Calendar.add`, or the 64-bit range of `timeInMillis`. Instants are unbounded integers there.
- Android plumbing is left out:
  - notification channels and permission checks;
  - `PendingIntent` and the notification builder;
  - WorkManager scheduling;
  - coroutines, LiveData observation, dialogs, RecyclerView, swipe gestures and chart styling.

  A notification is its key, name and amount. A dialog answer is the `DialogChoice` parameter.
- The catch-up loop over several missed cycles and archiving a payment on renewal are not modelled. The code has neither.
- SQL row order is modelled only where a query states it:
  - `getAllBills` orders by due date;
  - `getAllHistory` orders by payment date.

  The row order of `getBillsInRange` and `getCategoryStats` is unspecified. The model's order (table order, first-seen category) is one admissible order, and the contracts speak of membership.
- `Base.Filter`, `Base.SortBy` and the other generic lemmas in `Base` are helpers with their own contracts and no row above.

## Findings

| source | as written | input that shows it | evidently intended | confidence | as-written member | corrected member |
|---|---|---|---|---|---|---|
| app/src/main/java/com/example/billreminder/worker/BillReminderWorker.kt:34-36 | the selection tests the 64-bit difference `bill.dueDate - now <= threeDaysInMillis`, which wraps around when the difference does not fit in a Long | `dueDate = Long.MIN_VALUE`, `now = 1`: the difference wraps to `Long.MAX_VALUE`, so this overdue bill is not selected | every bill due no later than three days from now is selected, overdue bills included, as the comment at line 35 says | not executed | `Reminder.AsWrittenMissesOverdue` | `Reminder.SelectDueForNotice` |
