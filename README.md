# Billing Tracker: bill entry and aggregation

This project models the core of Billing Tracker, a web app where a signed-in
user records monthly water and electricity bills and sees them on a dashboard.
It covers two table components and the dashboard:

- **Water and electricity bill tables.**
  - The entry form: every input holds text, and changing a meter reading or
    the rate re-derives the consumption and the amount.
  - Pre-filling a new bill from the most recent one, and filling the edit
    form from a stored bill.
  - The month and year selects.
  - The payload sent to the store on add and on edit.
  - The column-sort toggle.
  - The year-and-search filter over the loaded bills.
  - The water table's statistics.
  - The component state each handler updates.
- **Dashboard.**
  - The selected year's bills of each kind.
  - The twelve-month consumption chart and its bar heights.
  - The annual summary: total consumption, average rate and total amount.

Every amount, reading, rate and consumption is an integer count of
hundredths, since the form inputs step by 0.01. JavaScript behaviour the
code relies on is written out over strings of code units:

- `parseFloat`, with `Number` = `NaN | Finite(hundredths)`;
- `parseInt`;
- `Number.prototype.toString` and `toFixed(2)`;
- `Math.max(0, …)`, which keeps NaN, and `Math.round`;
- `split`, `startsWith`, `includes`, `padStart`, `toLowerCase`;
- `localeCompare` of months.

Modules, in dependency order:

- `Base` (base.dfy): Option and Result, filter, find, sum, averages.
- `Strings` (strings.dfy): the string operations.
- `Numbers` (numbers.dfy): the number parsing and printing, and the tables'
  `formatNumber`.
- `Bills` (bills.dfy): what the two tables share.
- `WaterBills` (water_bills_table.dfy) and `ElectricityBills`
  (electricity_bills_table.dfy): each table's form derivation, payload and a
  class holding the component's state. The class has one method per handler.
  Each method's `ensures` gives the whole new state.
- `Dashboard` (dashboard.dfy): the dashboard's computations as functions of
  the loaded bills and the selected year.

Store calls are parameters of the handlers:

- the signed-in user's id (`None` when nobody is signed in);
- the store's error for an insert or update;
- the rows a fetch returns.

Handlers return the row or update they send. The current date is a
parameter too.

Points where the code's behaviour is easy to misread; the model follows
the code:

- **Water consumption is not clamped when saved.** When saving, the water
  table stores `current - previous` as it is, negative when the meter reading
  went down. The read-only consumption input clamps it to zero. The
  electricity table clamps on save. See `WaterBills.WaterRecordNegative`,
  `ElectricityBills.ElectricityRecordClamped` and `Dashboard.NegativeBar`.
- **The two year filters differ.** The tables read the year with
  `parseInt` of the first `-`-separated part. The dashboard checks that the
  month starts with the year's digits. They agree on months of the form
  `year-…` and differ when the year part is longer.
- **Unknown month numbers give `undefined`, not `''`.** `getMonthFromYYYYMM`
  returns `''` only when the string is empty or has no `-`. For a month
  number outside 1..12 it returns `undefined`, modelled as `None`.
- **The search term is always empty.** The tables hold a search term, but no
  code ever changes it from `''`, so the search never narrows the rows. The
  class invariant `Valid()` records this.
- **The water table's statistics are never shown.** The water table
  computes the bill count, total and average amount, and total and average
  consumption over the filtered bills, but nothing displays them.

## Model

| member | source | states |
|---|---|---|
| Strings.Split | src/components/WaterBillsTable.tsx:334 | `split('-')` gives at least one part, no part holds the separator, and joining the parts with it gives back the string |
| Strings.SplitAfter | src/components/WaterBillsTable.tsx:508 | a string `a + "-" + b` with no `-` in `a` splits into `a` followed by the parts of `b` |
| Strings.PadStart | src/components/WaterBillsTable.tsx:261 | `padStart` reaches the width, ends in the string itself and fills the front with the fill character |
| Strings.LowerAscii | src/components/WaterBillsTable.tsx:341-342 | lower-casing keeps the length and lowers each character |
| Strings.ContainsAt | src/components/WaterBillsTable.tsx:346-350 | `includes` holds whenever the term occurs at some position |
| Strings.ContainsSomewhere | src/components/WaterBillsTable.tsx:346-350 | whenever `includes` holds, the term occurs at some position, so `includes` holds exactly on occurrences |
| Strings.LexLeTotal | src/components/WaterBillsTable.tsx:250 | any two months are ordered one way or the other by the month comparison |
| Strings.LexLeTransitive | src/components/WaterBillsTable.tsx:250 | the month comparison is transitive |
| Strings.LexLeAntisymmetric | src/components/WaterBillsTable.tsx:250 | months that compare equal both ways are the same string |
| Numbers.ParseInt | src/components/Dashboard.tsx:64 | on strings without leading whitespace or a `0x` prefix, `parseInt` fails exactly when no digit follows the optional sign, and gives no negative value without a `-` |
| Numbers.Parse | src/components/WaterBillsTable.tsx:92-104 | `parseFloat` gives NaN exactly when after the optional sign there is neither a digit nor a '.' followed by a digit, and gives no negative value without a `-` |
| Numbers.ParseIntOfIntToString | src/components/WaterBillsTable.tsx:334 | `parseInt` reads back the string of any integer |
| Numbers.ParseNumberToString | src/components/WaterBillsTable.tsx:276-287 | `parseFloat` of a value's `toString` gives the value back |
| Numbers.ParseToFixed2 | src/components/WaterBillsTable.tsx:236 | `parseFloat` of `toFixed(2)` gives the value back |
| Numbers.ToFixed2EndsInZeros | src/components/WaterBillsTable.tsx:320-324 | `toFixed(2)` ends in ".00" exactly when the value is whole |
| Numbers.FormatNumber | src/components/WaterBillsTable.tsx:318-329 | the displayed number never ends in ".00", has no '.' exactly when whole, is the integer string for whole values and `toFixed(2)` otherwise, and `parseFloat` reads the value back from it |
| Numbers.MathRound | src/components/Dashboard.tsx:237 | `Math.round` is within one half of its argument, halves rounding up |
| Bills.FormData.Set | src/components/WaterBillsTable.tsx:219-222 | setting a form input changes that input and no other |
| Bills.NextSort | src/components/WaterBillsTable.tsx:71-78 | clicking the current column flips the direction; clicking another column sorts by it ascending |
| Bills.NextSortTwice | src/components/WaterBillsTable.tsx:71-78 | clicking the same column twice restores the ordering |
| Bills.DeriveConsumption | src/components/WaterBillsTable.tsx:231 | the derived consumption is non-negative, at least current - previous, and either 0 or exactly current - previous |
| Bills.RoundToCents | src/components/WaterBillsTable.tsx:236 | the product is rounded to the nearest hundredth, halves up |
| Bills.DeriveAmount | src/components/WaterBillsTable.tsx:234-238 | an amount is derived exactly when consumption and rate are both positive, and it is their product to the cent |
| Bills.MostRecentIndex | src/components/WaterBillsTable.tsx:244-252 | none exactly for no bills; else the first position whose month no other month exceeds |
| Bills.MostRecentBill | src/components/WaterBillsTable.tsx:244-252 | null exactly for no bills; otherwise a loaded bill whose month is greatest |
| Bills.DefaultMonthParts | src/components/WaterBillsTable.tsx:259-262 | the default month is the year and the zero-padded month joined by '-', and the tables' year filter reads the year back |
| Bills.NewBillFormPrefill | src/components/WaterBillsTable.tsx:254-274 | a new bill's form is in the current year, and its previous reading reads back as the most recent bill's current reading, or NaN with no bills |
| Bills.EditFormReadsBack | src/components/WaterBillsTable.tsx:276-287 | the edit form holds the bill's month, and each numeric input reads back as the bill's value |
| Bills.ChooseMonthParts | src/components/WaterBillsTable.tsx:507-510 | the month select keeps the year part, or uses the current year when it is empty, and leaves exactly year and chosen month |
| Bills.ChooseYearParts | src/components/WaterBillsTable.tsx:540-543 | the year select keeps the month part, or uses "01" when it is missing, and leaves exactly chosen year and month |
| Bills.ChooseMonthAndYear | src/components/WaterBillsTable.tsx:506-543 | choosing a month and a year, in either order, gives "year-month" |
| Bills.Minus | src/components/WaterBillsTable.tsx:93-94 | a difference is NaN when either reading is NaN, else the exact difference |
| Bills.ClampAtZero | src/components/ElectricityBillsTable.tsx:94 | `Math.max(0, x)` keeps NaN, and is otherwise non-negative and either 0 or x |
| Bills.AddBill | src/components/WaterBillsTable.tsx:80-131 | with no user nothing is sent and the error is "User not authenticated"; otherwise the user's row is sent, a store error is shown with the form and its visibility kept, and success clears the error, empties the form and closes it |
| Bills.EditBill | src/components/WaterBillsTable.tsx:133-185 | with no user or no selected bill nothing is sent and the error says so; otherwise the selected bill's update is sent, a store error keeps form, visibility and selection, and success empties the form, closes it and drops the selection; an open form stays on a selected bill |
| Bills.FilterBills | src/components/WaterBillsTable.tsx:332-354 | the rows keep their order, and a loaded bill is shown exactly when its year is the selected one and it matches the search |
| Bills.ConsumptionShownDerived | src/components/WaterBillsTable.tsx:633 | on empty or numeric readings, the read-only consumption shows the clamped difference of the readings |
| Bills.AmountShownReadsBack | src/components/WaterBillsTable.tsx:686 | the read-only amount shows the form's amount |
| WaterBills.WaterChange | src/components/WaterBillsTable.tsx:217-242 | the edited input takes the value and only consumption and amount may change besides it; on a reading or rate change the consumption reads back as the clamped difference of the readings (unreadable ones as 0), and the amount as consumption times rate to the cent when both are positive, otherwise it is unchanged |
| WaterBills.WaterRecordConsumption | src/components/WaterBillsTable.tsx:91-105 | on numeric readings the stored consumption is current - previous: the clamped value when the meter went up, negative when it went down |
| WaterBills.WaterRecordNegative | src/components/WaterBillsTable.tsx:92-94 | readings shown as p and then c with c < p store the negative consumption c - p |
| WaterBills.WaterEditUnchanged | src/components/WaterBillsTable.tsx:144-157 | saving an untouched edit form writes the bill's readings, rate and amount, with current - previous as consumption |
| WaterBills.WaterChangeShown | src/components/WaterBillsTable.tsx:229-232 | after a reading or rate change on readable readings, the read-only consumption shows the value in the form's consumption field |
| WaterBills.WaterStatisticsBounds | src/components/WaterBillsTable.tsx:356-361 | the bill count is the row count, the average amount lies within the rows' range of amounts and the average consumption within their range of consumptions |
| Base.Filter | src/components/WaterBillsTable.tsx:332 | `filter` keeps the elements that pass the test, in their order, and drops no element that passes it |
| Base.FilterCounts | src/components/Dashboard.tsx:70 | `filter` keeps every copy of an element that passes the test and no copy of one that fails it |
| Base.FirstMatch | src/components/Dashboard.tsx:174 | the position `find` stops at is the first element that passes the test, and there is none exactly when no element passes |
| Base.Average | src/components/WaterBillsTable.tsx:359 | an average is 0 for no bills and otherwise the exact quotient of the total by the count |
| Base.AverageBetween | src/components/WaterBillsTable.tsx:359 | the mean of terms within a range lies within that range |
| WaterBills.WaterBillsTable.constructor | src/components/WaterBillsTable.tsx:14-33 | the table starts empty, sorted by month descending, on the current year, with no form open and no error |
| WaterBills.WaterBillsTable.FilteredBills | src/components/WaterBillsTable.tsx:332-354 | the rows keep their order; with the empty search term they are exactly the loaded bills of the selected year |
| WaterBills.WaterBillsTable.FetchBills | src/components/WaterBillsTable.tsx:35-63 | with no user the error is "User not authenticated"; a store error is shown and the bills kept; otherwise the rows replace the bills, none for a null answer |
| WaterBills.WaterBillsTable.HandleSort | src/components/WaterBillsTable.tsx:71-78 | the sort becomes the next sort for the clicked column |
| WaterBills.WaterBillsTable.SelectYear | src/components/WaterBillsTable.tsx:427 | the selected year becomes the chosen one |
| WaterBills.WaterBillsTable.HandleChange | src/components/WaterBillsTable.tsx:217-242 | the form becomes the water form change of the old form |
| WaterBills.WaterBillsTable.ChooseFormMonth | src/components/WaterBillsTable.tsx:507-510 | only the form's month changes, to the month select's result |
| WaterBills.WaterBillsTable.ChooseFormYear | src/components/WaterBillsTable.tsx:540-543 | only the form's month changes, to the year select's result |
| WaterBills.WaterBillsTable.StartAddBill | src/components/WaterBillsTable.tsx:254-274 | the form is the pre-filled new-bill form and the add form is open |
| WaterBills.WaterBillsTable.OpenAddForm | src/components/WaterBillsTable.tsx:1409 | the add form opens with the form as it is |
| WaterBills.WaterBillsTable.CancelAdd | src/components/WaterBillsTable.tsx:697 | the add form closes |
| WaterBills.WaterBillsTable.StartEditBill | src/components/WaterBillsTable.tsx:276-287 | the bill is selected, the form is its edit form and the edit form is open |
| WaterBills.WaterBillsTable.CancelEdit | src/components/WaterBillsTable.tsx:767-770 | the edit form closes and no bill is selected |
| WaterBills.WaterBillsTable.HandleAddBill | src/components/WaterBillsTable.tsx:80-131 | the row sent, the error, the form and whether it is open are the outcome of `AddBill` on the old form and the form's water fields |
| WaterBills.WaterBillsTable.HandleEditBill | src/components/WaterBillsTable.tsx:133-185 | while the edit form is open a signed-in save always sends; the update sent, the error, the form, whether it is open and the selected bill are the outcome of `EditBill` on the old state and the form's water fields |
| ElectricityBills.ElectricityChange | src/components/ElectricityBillsTable.tsx:223-244 | the edited input takes the value and only the amount may change besides it, so the consumption input is never written; on a reading or rate change the amount reads back as the clamped consumption times the rate to the cent when both are positive, otherwise it is unchanged |
| ElectricityBills.ElectricityRecordConsumption | src/components/ElectricityBillsTable.tsx:91-105 | the stored consumption is NaN exactly when a reading is not a number, and otherwise the non-negative clamped difference |
| ElectricityBills.ElectricityRecordClamped | src/components/ElectricityBillsTable.tsx:92-94 | readings shown as p and then c with c < p store consumption 0 |
| ElectricityBills.ElectricityEditUnchanged | src/components/ElectricityBillsTable.tsx:145-158 | saving an untouched edit form writes the bill's readings, rate and amount, with the clamped difference as consumption |
| ElectricityBills.ElectricityShownIsStored | src/components/ElectricityBillsTable.tsx:629 | on numeric readings the read-only consumption shows what a save stores |
| ElectricityBills.ElectricityBillsTable.constructor | src/components/ElectricityBillsTable.tsx:14-33 | the table starts empty, sorted by month descending, on the current year, with no form open and no error |
| ElectricityBills.ElectricityBillsTable.FilteredBills | src/components/ElectricityBillsTable.tsx:321-343 | the rows keep their order; with the empty search term they are exactly the loaded bills of the selected year |
| ElectricityBills.ElectricityBillsTable.FetchBills | src/components/ElectricityBillsTable.tsx:35-63 | with no user the error is "User not authenticated"; a store error is shown and the bills kept; otherwise the rows replace the bills |
| ElectricityBills.ElectricityBillsTable.HandleSort | src/components/ElectricityBillsTable.tsx:71-78 | the sort becomes the next sort for the clicked column |
| ElectricityBills.ElectricityBillsTable.SelectYear | src/components/ElectricityBillsTable.tsx:423 | the selected year becomes the chosen one |
| ElectricityBills.ElectricityBillsTable.HandleChange | src/components/ElectricityBillsTable.tsx:223-244 | the form becomes the electricity form change of the old form |
| ElectricityBills.ElectricityBillsTable.ChooseFormMonth | src/components/ElectricityBillsTable.tsx:503-506 | only the form's month changes, to the month select's result |
| ElectricityBills.ElectricityBillsTable.ChooseFormYear | src/components/ElectricityBillsTable.tsx:536-539 | only the form's month changes, to the year select's result |
| ElectricityBills.ElectricityBillsTable.StartAddBill | src/components/ElectricityBillsTable.tsx:256-276 | the form is the pre-filled new-bill form and the add form is open |
| ElectricityBills.ElectricityBillsTable.OpenAddForm | src/components/ElectricityBillsTable.tsx:1390 | the add form opens with the form as it is |
| ElectricityBills.ElectricityBillsTable.CancelAdd | src/components/ElectricityBillsTable.tsx:693 | the add form closes |
| ElectricityBills.ElectricityBillsTable.StartEditBill | src/components/ElectricityBillsTable.tsx:278-289 | the bill is selected, the form is its edit form and the edit form is open |
| ElectricityBills.ElectricityBillsTable.CancelEdit | src/components/ElectricityBillsTable.tsx:763-766 | the edit form closes and no bill is selected |
| ElectricityBills.ElectricityBillsTable.HandleAddBill | src/components/ElectricityBillsTable.tsx:80-131 | the row sent, the error, the form and whether it is open are the outcome of `AddBill` on the old form and the form's electricity fields (consumption clamped) |
| ElectricityBills.ElectricityBillsTable.HandleEditBill | src/components/ElectricityBillsTable.tsx:133-191 | while the edit form is open a signed-in save always sends; the update sent, the error, the form, whether it is open and the selected bill are the outcome of `EditBill` on the old state and the form's electricity fields |
| Dashboard.MonthLabel | src/components/Dashboard.tsx:62-67 | a month without '-' gets the empty label; any other label is one of the twelve short month names |
| Dashboard.ParsePaddedMonth | src/components/Dashboard.tsx:64 | `parseInt` reads a zero-padded month number back |
| Dashboard.DefaultMonthLabel | src/components/Dashboard.tsx:62-67 | a bill with a default month is charted under that month's name |
| Dashboard.MonthLabelUndefined | src/components/Dashboard.tsx:64-66 | a month number 0 or above 12 has no name (`undefined`) |
| Dashboard.YearBills | src/components/Dashboard.tsx:70-76 | the year's bills keep their order and are exactly the bills whose month starts with the year |
| Dashboard.YearFiltersAgree | src/components/Dashboard.tsx:70-72 | on a month "year-…" the dashboard's and the tables' year filters both accept the year |
| Dashboard.YearFiltersDiffer | src/components/Dashboard.tsx:70-72 | a year part with one more digit passes the dashboard's filter for the shorter year while the tables read the longer year |
| Dashboard.ChartMax | src/components/Dashboard.tsx:79-80 | the chart maximum is at least the floor and every consumption, and is the floor or one of them |
| Dashboard.ChartedBill | src/components/Dashboard.tsx:174 | `find` gives none exactly when no year bill is charted under the month's name, and otherwise the first one that is |
| Dashboard.MakeSlot | src/components/Dashboard.tsx:173-176 | a month's column holds the charted bill for that name; without one its consumption and bar height are 0, with one they are the bill's consumption and its percentage of the maximum |
| Dashboard.BarPercent | src/components/Dashboard.tsx:176 | the bar height times the maximum is 100 times the consumption, and is negative exactly when the consumption is |
| Dashboard.MonthlySeries | src/components/Dashboard.tsx:173 | there are twelve columns, January to December |
| Dashboard.PercentBetween | src/components/Dashboard.tsx:176 | a consumption between 0 and the maximum gives a bar height between 0 and 100 percent |
| Dashboard.PercentAtMost | src/components/Dashboard.tsx:176 | a consumption at most the maximum, negative or not, gives a bar height of at most 100 percent |
| Dashboard.BarAtMostFull | src/components/Dashboard.tsx:173-176 | with the chart maximum taken over the year's bills, every bar is at most 100 percent, whatever the signs of the consumptions |
| Dashboard.BarNonNegative | src/components/Dashboard.tsx:173-176 | a column whose charted bill, if any, has a consumption that is not negative draws a bar of at least 0 percent |
| Dashboard.NegativeBar | src/components/Dashboard.tsx:283-286 | a bill with negative consumption draws a bar of negative height |
| Dashboard.RoundedTotal | src/components/Dashboard.tsx:237 | a displayed total is within one half of the exact sum |
| Dashboard.TotalConsumption | src/components/Dashboard.tsx:237 | the summary's total consumption is within one half of the sum of the year's consumptions |
| Dashboard.TotalAmount | src/components/Dashboard.tsx:252 | the summary's total amount is within one half of the sum of the year's amounts |
| Dashboard.Tooltip | src/components/Dashboard.tsx:188-191 | a tooltip shows 0 for a zero amount or rate, and any other one within one half of its value |
| Dashboard.AverageRate | src/components/Dashboard.tsx:243-246 | the average rate is 0 for no bills, and otherwise within one half of the rate sum over the number of rated bills |
| Dashboard.MeanRateOverRated | src/components/Dashboard.tsx:243-246 | bills without a rate change neither sum nor count, so the average is the mean over the rated bills |
| Dashboard.AverageRateNoRates | src/components/Dashboard.tsx:245 | with no rated bill the average rate is 0 |
| Dashboard.MeanRateBetween | src/components/Dashboard.tsx:243-246 | when rated bills exist and their rates lie in a range, the unrounded average lies in it |
| Dashboard.Fetched | src/components/Dashboard.tsx:27-41 | a fetch error keeps the list, a null answer empties it, and rows replace it |
| Dashboard.ChartFor | src/components/Dashboard.tsx:170-255 | the chart for one kind of bill always has twelve columns |

## Left out

- Supabase I/O, authentication, the theme, `loading`, `console.error`
  logging and rendering are not modelled. The store's answers are handler
  parameters.
- The refetch after a successful add or edit is left to a separate
  `FetchBills` call. The electricity `handleEditBill` awaits it; the water
  one does not.
- The database sorts fetched rows; the model takes the rows as
  returned. `HandleSort` updates the sort state only.
- `handleDeleteBill` and its `confirm` dialog are not modelled.
- `formatCurrency`, `formatDate` and `formatMonth` use `Intl` and the
  locale and are not modelled.
- Numbers are exact hundredths. IEEE-754 rounding, exponents, `Infinity`
  and leading whitespace in `parseFloat` are not modelled. Fraction digits
  past the second are dropped, as the inputs step by 0.01.
- Stored bills hold numbers, never NaN or null, so `bill.rate || 0` and
  `bill.amount || 0` on the dashboard are the identity.
- Bills.MatchesSearch: lower-casing covers ASCII letters only.
- Numbers.ParseInt: leading whitespace, which `parseInt` skips, and a
  `0x`/`0X` prefix, which it reads as hexadecimal, are not modelled. Every
  month the app writes comes from its selects as "YYYY-MM", which has
  neither.
- Strings.LexLe: `localeCompare` is taken as code-unit order. This agrees
  with the locale order on YYYY-MM strings.
- Dashboard.MonthlySeries: the chart columns do not carry their tooltips;
  the tooltip's rounded amount and rate are `Dashboard.Tooltip` on their
  own. The highlight for bars above 5% is not modelled.
- The unused `filter` and `billStatus` states are not modelled.
