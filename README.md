# FMS church-finance ledger — a Dafny model

FMS keeps the finance records of a church. Each record is a transaction: a date, and four amounts with their text fields:

- a general offering;
- a special offering and its givers' names;
- a tithe and its givers' names;
- expenses and their details;
- remarks, an optional proof file, and the user who created it.

An Express server stores the records and their uploaded proofs. It exposes create, list, update and delete routes behind a token guard. A React client works with those records on several pages:

- a dashboard of totals for a month or a year, with a monthly breakdown of a year and a PDF report;
- a monthly sheet where rows are added and edited inline;
- an "add transaction" form with custom key/value fields;
- the sign-in pages;
- a shared cache of the fetched records.

This project models that core in Dafny and proves what each part promises. The model has these conventions:

- Amounts are integers: the number typed, unscaled.
- Dates are `(year, month, day)` triples.
- The database is a map from id to record.
- The upload directory is the set of the proof paths it holds.
- Code that changes state is modelled as classes with `modifies` clauses. This covers the pages' state, the cache, the store and the guards' request state.
- Code that only computes is modelled as functions.
- Loops in the source are `for`/`while` loops proved against specification functions.

Modules, one per file:

- `common.dfy` (`Common`): `Option` and a few generic facts about lists.
- `text.dfy` (`Text`) covers the JavaScript string operations the program relies on:
  - `String(n)`;
  - `padStart`;
  - the `\s` class;
  - `Number(x) || 0` on form fields.
- `calendar.dfy` (`Calendar`) covers:
  - Gregorian month lengths;
  - month stepping;
  - the month carry of `new Date(y, m, d)`;
  - two-digit years;
  - the `YYYY-MM-DD` strings of ISO 8601:2004 section 4.1.2.2, both as written and as read back.
- `ledger.dfy` (`Ledger`): the record schema and its defaults, per-field totals and the summary, and the stable sort by date.
- `dashboard.dfy` (`Dashboard`) covers:
  - the period and its arrows;
  - totals and the twelve-bucket year breakdown;
  - the period label and the export file name;
  - the report's table and proof appendix.
- `sheet.dfy` (`Sheet`) covers:
  - the monthly sheet's selection;
  - the day selector and the default day;
  - totals;
  - how a row becomes a request body.
- `cache.dfy` (`Cache`): the client's shared list of records and how fetch, add, update, delete and sign-out change it.
- `store.dfy` (`Store`) covers:
  - the server routes;
  - the stored proof names;
  - the GET date window;
  - POST coercion and PUT partial update;
  - the agreement between records and proof files.
- `auth.dfy` (`Auth`): Bearer-token extraction (section 2.1 of RFC 6750), the token guard and the SuperAdmin guard.
- `sign_in.dfy` (`SignIn`): the register and login forms' checks and submit sequences.
- `add_transaction.dfy` (`AddTransaction`): the add form, its custom-field list, and the flattening of that list.
- `flows.dfy` (`Flows`): page and server together.
  - A page's fetch selects exactly its period.
  - A saved sheet row is listed in its month.
  - An edit saved unchanged keeps the record.

Outside influences become parameters:

- the current date, `Date.now()` and the uploaded file;
- the answers of the HTTP calls;
- the signature check of `jwt.verify`;
- the image loader of the report.

## Model

| member | source | states |
|---|---|---|
| Text.PadStart | frontend/src/pages/Transactions.js:60 | `padStart(width, c)` gives a string of the larger of the two lengths that ends with the input and is `c` before it |
| Text.NumberOrZero | backend/routes/transactions.js:29-34 | `Number(x) \|\| 0`: a missing, blank or non-numeric field is 0; any other integer, negatives included, is kept |
| Text.ParseIntToString | backend/routes/transactions.js:91 | `Number(String(i)) == i`: an integer numeral the client writes is read back by the server as the same integer |
| Text.NatToStringValue | frontend/src/pages/Transactions.js:60 | the digits `String(n)` writes denote `n` |
| Calendar.MonthLength | frontend/src/pages/Transactions.js:40 | every Gregorian month length is between 28 and 31 |
| Calendar.DaysInMonthCases | frontend/src/pages/Transactions.js:40 | `new Date(y, m, 0).getDate()` is 29 exactly for a leap February, 28 for other Februaries, 30 for April/June/September/November, 31 otherwise |
| Calendar.YearLength | frontend/src/pages/Transactions.js:40 | the twelve month lengths add up to 366 in a leap year and 365 otherwise |
| Calendar.PrevMonth | frontend/src/pages/Transactions.js:138 | the month before: the month count drops by exactly one, so January goes to December of the year before |
| Calendar.NextMonth | frontend/src/pages/Transactions.js:139 | the month after: the month count rises by exactly one, so December goes to January of the next year |
| Calendar.PrevNextInverse | frontend/src/pages/Transactions.js:138-139 | stepping back and forward undo each other, in both orders |
| Calendar.NormalizeMonth | backend/routes/transactions.js:62-63 | `new Date(y, m0, …)` for any zero-based month lands on the month whose count from year 0 is `12y + m0` |
| Calendar.MakeDate | backend/routes/transactions.js:28 | an existing day is kept; a day past the end of its month becomes that many days minus the month's length in the next month (never past December); the result is always a real date of the same year |
| Calendar.ParseIsoDate | backend/routes/transactions.js:28 | `new Date(s)` on a date-only string: whatever it reads is a real date with a year from 0 to 9999 |
| Calendar.IsoDateRoundTrip | frontend/src/pages/AddTransaction.js:17 | reading back the date part of `toISOString()` gives the same day, for years 0..9999 |
| Calendar.DateStringIsIso | frontend/src/pages/Transactions.js:60 | for four-digit years the sheet's date string is the ISO 8601 extended calendar date |
| Calendar.IsoDateRead | backend/routes/transactions.js:28 | the server reads the `YYYY-MM-DD` of any year 0..9999, month and day 1..31 as the day `new Date(y, m - 1, d)` names, overflow included |
| Calendar.DateStringRead | backend/routes/transactions.js:28 | the sheet's date string for any day 1..31 of a month of a four-digit year is stored as `MakeDate` of it |
| Calendar.DateStringRoundTrip | frontend/src/pages/Transactions.js:107 | the server reads the sheet's date string back as exactly the selected day, for four-digit years |
| Ledger.NewTransaction | backend/models/Transaction.js:3-49 | a fresh record has the given date, id and author, every amount 0, every text empty and no proof |
| Ledger.DefaultAddsNothing | backend/models/Transaction.js:9-32 | a record left at its defaults adds nothing to any total |
| Ledger.TotalAppend | frontend/src/pages/Dashboard.js:37-42 | a field's total over two lists joined is the sum of their totals |
| Ledger.TotalPermutation | frontend/src/pages/Dashboard.js:37-42 | a field's total does not depend on the order of the records |
| Ledger.InsertByDate | frontend/src/context/TransactionContext.js:46 | inserting a record gives one more element and adds exactly that record to the multiset |
| Ledger.InsertByDateSorted | frontend/src/context/TransactionContext.js:46 | inserting into a list in date order keeps it in date order |
| Ledger.SortByDateCorrect | backend/routes/transactions.js:74 | the sort by date is ascending and is a permutation of its input |
| Ledger.InsertByDateOnDate | frontend/src/context/TransactionContext.js:46 | an insertion step keeps the records of every date in their order, with the inserted record after those of its own date |
| Ledger.SortByDateStable | frontend/src/context/TransactionContext.js:46 | the sort is stable: the records of any one date come out in the order they went in |
| Ledger.SortByDateSortedUnchanged | frontend/src/context/TransactionContext.js:46 | sorting a list that is already in date order leaves it as it is, so equal dates keep their order |
| Dashboard.Back | frontend/src/pages/Dashboard.js:215-222 | left arrow: in month view the month count drops by one; in year view the year drops by one and the month is kept; the mode never changes |
| Dashboard.Forward | frontend/src/pages/Dashboard.js:224-231 | right arrow: the mirror image of the left arrow |
| Dashboard.BackForwardInverse | frontend/src/pages/Dashboard.js:215-231 | the two arrows undo each other in either view |
| Dashboard.DashboardView.constructor | frontend/src/pages/Dashboard.js:19-22 | the page opens in month view on the current year and month |
| Dashboard.DashboardView.SetViewMode | frontend/src/pages/Dashboard.js:210-211 | the Monthly/Yearly toggle changes the mode and keeps the year and month |
| Dashboard.DashboardView.Previous | frontend/src/pages/Dashboard.js:215-222 | the left arrow's handler moves the selection to `Back` of the old one |
| Dashboard.DashboardView.Next | frontend/src/pages/Dashboard.js:224-231 | the right arrow's handler moves the selection to `Forward` of the old one |
| Dashboard.ComputeTotals | frontend/src/pages/Dashboard.js:35-45 | the accumulator loop gives the four field totals (missing counts as 0), offerings = general + special + tithe, and balance = offerings − expenses |
| Dashboard.YearBreakdown | frontend/src/pages/Dashboard.js:62 | the year chart has exactly twelve buckets |
| Dashboard.MonthlyBreakdown | frontend/src/pages/Dashboard.js:59-67 | none in month view; in year view, the twelve in-place buckets each hold the offerings and expenses of their month's records |
| Dashboard.MonthsSumTotal | frontend/src/pages/Dashboard.js:63-66 | each record falls in exactly one month, so a field's twelve monthly sums add up to its total |
| Dashboard.BreakdownMatchesTotals | frontend/src/pages/Dashboard.js:63-66 | the offering bars add up to the total offerings and the expense bars to the total expenses |
| Dashboard.EmptyMonth | frontend/src/pages/Dashboard.js:62 | a month with no records has an empty bucket |
| Dashboard.MonthNameNoWhitespace | frontend/src/pages/Dashboard.js:13 | no month name holds white space |
| Dashboard.ReplaceWhitespace | frontend/src/pages/Dashboard.js:186 | `replace(/\s/g, '_')`: same length; every white-space character becomes `_` and every other character is kept |
| Dashboard.ExportFileNameNoWhitespace | frontend/src/pages/Dashboard.js:186 | the export file name has no white space, whatever the period |
| Dashboard.ExportFileNameMonth | frontend/src/pages/Dashboard.js:108-110 | in month view the file name is `FMS_Report_<Month>_<year>.pdf` |
| Dashboard.ExportFileNameYear | frontend/src/pages/Dashboard.js:108-110 | in year view the file name is `FMS_Report_Year_<year>.pdf` |
| Dashboard.OrDash | frontend/src/pages/Dashboard.js:143 | `s \|\| '-'` is never empty and keeps a non-empty text |
| Dashboard.RecordLine | frontend/src/pages/Dashboard.js:139-150 | a record's table row has its date, its four amounts with missing as 0, its four texts with a dash for an empty one, and "Yes (see appendix)" exactly when it has a proof |
| Dashboard.WithProof | frontend/src/pages/Dashboard.js:155 | the filtered list is no longer than the input and holds only records with a proof |
| Dashboard.WithProofMembers | frontend/src/pages/Dashboard.js:155 | the filter keeps exactly the records whose `proofUrl` is set |
| Dashboard.ProofPage | frontend/src/pages/Dashboard.js:157-182 | the i-th page is numbered "i+1 of n" and shows the record's date, its expenses, and its expense details, or its remarks when there are no details. The proof is embedded exactly when the image loads and embeds. When the loader gives nothing, the page prints the link as a non-image |
| Dashboard.ExportReport | frontend/src/pages/Dashboard.js:106-186 | the report has one row per record in order, then one TOTAL row carrying the totals and balance. It has one appendix page per record with a proof, in order, with a failed load still getting its page. Its title and file name come from the period label |
| Dashboard.MarchSummary | frontend/src/pages/Dashboard.js:35-45 | worked example: two March records give offerings 170, expenses 30 and balance 140 |
| Dashboard.YearViewExample | frontend/src/pages/Dashboard.js:59-67 | worked example: in year view only the March and December buckets are non-zero |
| Sheet.DayOptions | frontend/src/pages/Transactions.js:149 | the day selector has exactly `daysInMonth` options |
| Sheet.DayOptionsExact | frontend/src/pages/Transactions.js:149 | a day is offered exactly when it is from 1 to the month's length, which is 28..31 |
| Sheet.DefaultDay | frontend/src/pages/Transactions.js:18-22 | today's day when the sheet shows the current year and month, otherwise 1 |
| Sheet.DefaultDayOffered | frontend/src/pages/Transactions.js:18-22 | the default day is always one the day selector offers |
| Sheet.SheetTotals | frontend/src/pages/Transactions.js:43-53 | the reduce gives the four field totals; offerings and balance are derived as on the dashboard |
| Sheet.EditAmount | frontend/src/pages/Transactions.js:91-97 | `v \|\| ''`: a non-zero amount is shown as is, and a zero or missing amount as blank |
| Sheet.Submitted | frontend/src/pages/Transactions.js:110-117 | `v \|\| 0`: a blank input is sent as "0" and a typed value as typed |
| Sheet.EditSaveRoundTrip | frontend/src/pages/Transactions.js:91-117 | an amount edited and saved unchanged reaches the server as the same number, with missing as 0 |
| Sheet.EmptyRow | frontend/src/pages/Transactions.js:23 | a blank row is on the default day, which for a clock date is always a day the selector offers, with blank amounts and empty texts |
| Sheet.EditForm | frontend/src/pages/Transactions.js:87-101 | the edit form holds the record's day of month, its texts unchanged, and each amount in its edit rendering |
| Sheet.EditFormSavesAmounts | frontend/src/pages/Transactions.js:87-117 | each amount input of the edit form, saved unchanged, is read back as the record's value of that amount (missing as 0) |
| Sheet.RowBody | frontend/src/pages/Transactions.js:105-117 | a saved row sends every text, the submitted amounts, and a date the server reads as the row's day of the selected month, or, for a day the month lacks, the day it runs on to in the next month |
| Sheet.RowDateRoundTrip | frontend/src/pages/Transactions.js:107 | the server reads a saved row's date back as exactly that day of the selected month |
| Sheet.SheetPage.constructor | frontend/src/pages/Transactions.js:12-24 | the sheet opens on the current month with no open row and a blank new row on a day the month has |
| Sheet.SheetPage.SelectionChanged | frontend/src/pages/Transactions.js:33-38 | corrected: after a month change the rows close and the new row moves to the new month's default day, so it stays a day the month has |
| Sheet.SheetPage.SelectionChangedAsWritten | frontend/src/pages/Transactions.js:33-38 | as written: the rows close but the new row keeps its old day |
| Sheet.SheetPage.PrevMonth | frontend/src/pages/Transactions.js:138 | the selection becomes `Calendar.PrevMonth` of the old one; nothing else changes |
| Sheet.SheetPage.NextMonth | frontend/src/pages/Transactions.js:139 | the selection becomes `Calendar.NextMonth` of the old one; nothing else changes |
| Sheet.SheetPage.PrevYear | frontend/src/pages/Transactions.js:158 | the year drops by one and the month is kept |
| Sheet.SheetPage.NextYear | frontend/src/pages/Transactions.js:160 | the year rises by one and the month is kept |
| Sheet.SheetPage.SelectMonth | frontend/src/pages/Transactions.js:164 | a month tab selects that month of the same year |
| Sheet.SheetPage.OpenAddRow | frontend/src/pages/Transactions.js:176 | "Add Row" opens the new row and closes any edit |
| Sheet.SheetPage.ChooseDay | frontend/src/pages/Transactions.js:149 | choosing an offered day sets the new row's day, which stays a day of the month |
| Sheet.SheetPage.FinishSaveRow | frontend/src/pages/Transactions.js:73-81 | on success the row closes and resets to a blank row; on failure it stays, and the alert shows the server's message or "Error" |
| Sheet.SheetPage.CancelRow | frontend/src/pages/Transactions.js:84 | cancel closes the new row and resets it to a blank one |
| Sheet.SheetPage.StartEdit | frontend/src/pages/Transactions.js:87-101 | the pencil opens that record's id with its edit form |
| Sheet.SheetPage.FinishSaveEdit | frontend/src/pages/Transactions.js:120-128 | on success the edit closes; on failure it stays open, and the alert shows the server's message or "Error updating" |
| Sheet.SheetPage.CancelEdit | frontend/src/pages/Transactions.js:131 | cancel closes the edit |
| Sheet.StaleDayExample | frontend/src/pages/Transactions.js:33-38 | as written, moving from 31 January to February leaves day 31 on the new row, which the selector does not offer. The row is sent with the date string of 31 February 2024 and stored as 2 March |
| Cache.ErrorMessage | frontend/src/context/TransactionContext.js:50 | `err.response?.data?.msg \|\| fallback` |
| Cache.ReplaceById | frontend/src/context/TransactionContext.js:66 | same length; each record with the id is replaced and every other record is kept in place |
| Cache.ReplaceAbsent | frontend/src/context/TransactionContext.js:66 | replacing an id no record has changes nothing |
| Cache.ReplaceByIdMembers | frontend/src/context/TransactionContext.js:66 | after the replace, the list holds the new record exactly when some record had the id, plus every record without the id, and nothing else |
| Cache.RemoveById | frontend/src/context/TransactionContext.js:79 | the filter never makes the list longer |
| Cache.RemoveByIdMembers | frontend/src/context/TransactionContext.js:79 | exactly the records without the id remain |
| Cache.RemoveByIdAppend | frontend/src/context/TransactionContext.js:79 | the filter works piece by piece, so survivors keep their relative order |
| Cache.RemoveAbsent | frontend/src/context/TransactionContext.js:79 | removing an id no record has changes nothing |
| Cache.AddedList | frontend/src/context/TransactionContext.js:46 | after an add, the list is sorted by date, one longer, and is the old records plus the new one |
| Cache.UpdatedList | frontend/src/context/TransactionContext.js:66 | after an update, the list is sorted by date and as long as before. It holds the server's record in place of each record with the id, and every other record |
| Cache.TransactionProvider.constructor | frontend/src/context/TransactionContext.js:9-11 | the cache starts empty, not loading, with no error |
| Cache.TransactionProvider.BeginFetch | frontend/src/context/TransactionContext.js:15-17 | without a signed-in user nothing happens; otherwise loading starts |
| Cache.TransactionProvider.FinishFetch | frontend/src/context/TransactionContext.js:24-31 | success replaces the list and clears the error; failure keeps the list and sets the server's message or "Error fetching transactions"; loading stops either way |
| Cache.TransactionProvider.AddTransaction | frontend/src/context/TransactionContext.js:45-51 | success sets the list to the old list plus the record, sorted by date; failure leaves the list unchanged and returns the message or "Error adding transaction" |
| Cache.TransactionProvider.UpdateTransaction | frontend/src/context/TransactionContext.js:65-71 | success replaces by id and re-sorts; failure leaves the list unchanged and returns the message or "Error updating transaction" |
| Cache.TransactionProvider.DeleteTransaction | frontend/src/context/TransactionContext.js:78-83 | success removes the records with the id; failure leaves the list unchanged and returns the message or "Error deleting transaction" |
| Cache.TransactionProvider.AuthChanged | frontend/src/context/TransactionContext.js:87-92 | signing out empties the list; signing in asks for a fetch with no parameters |
| Store.LastDot | backend/routes/transactions.js:17 | the position of the last dot, or −1 when there is none |
| Store.LastDotUnique | backend/routes/transactions.js:17 | a dot with no dot after it is the last dot |
| Store.ExtName | backend/routes/transactions.js:17 | `path.extname` is the name from its last dot on when that dot is not the first character and the name is not ".."; otherwise it is empty |
| Store.StoredNameExtension | backend/routes/transactions.js:17 | a stored proof keeps the original file's extension |
| Store.DigitRun | backend/routes/transactions.js:60 | the longest run of digits at the front of a string |
| Store.UploadTimesDistinct | backend/routes/transactions.js:17 | proofs stored at different milliseconds get different paths, whatever their names |
| Store.ParseIntNumeral | backend/routes/transactions.js:60-61 | `parseInt(String(i)) == i`: a number the client sends in the query is read back unchanged |
| Store.MonthWindow | backend/routes/transactions.js:59-64 | the year+month window exists exactly for the (normalised) months a JavaScript `Date` holds from the 1st to the last day's end, May of year -271821 to August of year 275760; beyond them a bound is an Invalid Date |
| Store.YearWindow | backend/routes/transactions.js:65-67 | the year window exists exactly for years -271820 to 275759 |
| Store.MonthWindowExact | backend/routes/transactions.js:59-64 | an existing year+month window holds exactly the days of that (normalised) month |
| Store.YearWindowExact | backend/routes/transactions.js:65-67 | an existing year window holds exactly the days of that year |
| Store.YearMonthWindow | backend/routes/transactions.js:58-64 | a year and a month that `parseInt` reads give that month's window, whatever the date range says |
| Store.YearOnlyWindow | backend/routes/transactions.js:65-67 | a year that `parseInt` reads, without a month, gives that year's window |
| Store.ParseBound | backend/routes/transactions.js:70-71 | an absent or empty bound is no bound; otherwise it is the date read, or invalid when it is not a date |
| Store.NoParametersNoFilter | backend/routes/transactions.js:56 | a query with none of the parameters selects every record |
| Store.YearMonthPrecedence | backend/routes/transactions.js:59-72 | when `year` is given, `startDate` and `endDate` have no effect |
| Store.BuildFilter | backend/routes/transactions.js:56-72 | the incrementally built `query.date` (day 0 of the next month is the end, and a bound outside the `Date` range makes it invalid) is the condition `QueryFilter` describes |
| Store.CreatedFromEmptyBody | backend/routes/transactions.js:27-38 | a POST with no fields and no proof saves the schema's fresh record |
| Store.PatchedEmpty | backend/routes/transactions.js:90-98 | a PUT with no fields keeps the record as it is |
| Store.PatchedTwice | backend/routes/transactions.js:90-98 | the same PUT twice has the effect of one |
| Store.PatchedFullBody | backend/routes/transactions.js:90-98 | a PUT that gives every field makes the record a POST would make, keeping the id and author |
| Store.ProofFiles | backend/routes/transactions.js:122-125 | a record names exactly its `proofUrl` as its proof file when that is set and non-empty, and no file otherwise |
| Store.Orphaned | backend/routes/transactions.js:100-106 | a file that no record names breaks the agreement between records and files |
| Store.Dangling | backend/routes/transactions.js:100-106 | a record that names a deleted file breaks the agreement |
| Store.AddConsistent | backend/routes/transactions.js:40-44 | adding a record whose proof is a new file keeps records and files in agreement |
| Store.KeepProofConsistent | backend/routes/transactions.js:90-98 | changing fields without changing the proof keeps the agreement |
| Store.NewProofConsistent | backend/routes/transactions.js:100-106 | replacing the proof (old file deleted, new one added) keeps the agreement |
| Store.RemoveConsistent | backend/routes/transactions.js:122-127 | removing a record and its proof file keeps the agreement |
| Store.TransactionStore.constructor | backend/routes/transactions.js:10-14 | an empty store and directory, in agreement |
| Store.TransactionStore.CreateAsWritten | backend/routes/transactions.js:23-50 | as written: the upload is stored first. With a date that cannot be read, the result is a 500 and no record, and a new upload is left with no record naming it, breaking the records/files agreement. Otherwise the coerced record is saved with `/uploads/<name>` as its proof |
| Store.TransactionStore.Create | backend/routes/transactions.js:23-50 | corrected: the same record on success, and nothing stored on failure; the records/files agreement is kept |
| Store.TransactionStore.List | backend/routes/transactions.js:53-80 | an invalid date condition gives a 500. Otherwise the result lists exactly the stored records in the window, each once, ascending by date |
| Store.TransactionStore.UpdateAsWritten | backend/routes/transactions.js:83-114 | as written: the upload is stored first. An unknown id gives a 404. Otherwise the given fields are assigned and a new proof deletes the old one; a date that cannot be read fails the save with a 500. The two failure paths are shown to break the agreement |
| Store.TransactionStore.Update | backend/routes/transactions.js:83-114 | corrected: the same record on success; on a 404 or 500 nothing changes; the agreement is kept |
| Store.TransactionStore.Delete | backend/routes/transactions.js:117-133 | an unknown id gives a 404 and nothing changes. Otherwise the record and its proof file are removed, with "Transaction removed"; the agreement is kept |
| Store.OrphanedUploadExample | backend/routes/transactions.js:83-86 | a PUT with a proof for an unknown id answers 404 and leaves an upload that no record names |
| Store.DeletedProofExample | backend/routes/transactions.js:100-108 | a PUT with a new proof and an unreadable date answers 500 after deleting the proof file the record still names |
| Auth.Split | backend/middleware/auth.js:8 | `split(c)` gives at least one piece, none containing `c`, and two or more exactly when `c` occurs |
| Auth.SplitJoin | backend/middleware/auth.js:8 | joining the pieces again gives back the header |
| Auth.BearerToken | backend/middleware/auth.js:8 | after "Bearer " the token is a piece without spaces; any other header is the token itself |
| Auth.BearerRoundTrip | backend/middleware/auth.js:8 | "Bearer <token>" yields the token, for a token without spaces |
| Auth.BearerDropsRest | backend/middleware/auth.js:8 | anything after a further space is dropped |
| Auth.Authenticate | backend/middleware/auth.js:3-15 | a missing or empty header gets 401 "No token, authorization denied". The request proceeds exactly when the extracted token verifies, with the user it names. Every refusal is a 401 |
| Auth.BearerAdmitted | backend/middleware/auth.js:8-13 | a Bearer client is admitted exactly when its token verifies; otherwise it gets 401 "Token is not valid" |
| Auth.RequireSuperAdmin | backend/middleware/auth.js:17-22 | the request proceeds exactly for role "SuperAdmin"; otherwise 403 "Access denied. SuperAdmin restricted." |
| Auth.Exchange.AuthMiddleware | backend/middleware/auth.js:3-15 | on admission `req.user` is set and `next` is called; on refusal the status and msg are set and the user is left alone |
| Auth.Exchange.SuperAdminMiddleware | backend/middleware/auth.js:17-22 | `next` for a SuperAdmin; otherwise 403 with its message |
| SignIn.RegisterCheck | frontend/src/pages/Register.js:33-43 | the check passes exactly when all fields are filled and the password has at least 6 characters. An empty field (an empty password included) reports "Please fill in all fields" first |
| SignIn.LoginCheck | frontend/src/pages/Login.js:28-32 | the check passes exactly when both fields are filled; otherwise "Please fill in all fields" |
| SignIn.RegisterPage.constructor | frontend/src/pages/Register.js:10-17 | empty fields, role "SuperAdmin", no error |
| SignIn.RegisterPage.Change | frontend/src/pages/Register.js:26 | the named input takes the value |
| SignIn.RegisterPage.Submit | frontend/src/pages/Register.js:28-45 | `register` is called with (name, email, password, role) exactly when the checks pass. Otherwise the first failed check's message is shown and the button is re-enabled |
| SignIn.RegisterPage.Finish | frontend/src/pages/Register.js:47-52 | success navigates; failure shows the message and re-enables the button |
| SignIn.LoginPage.constructor | frontend/src/pages/Login.js:10-12 | empty fields, no error |
| SignIn.LoginPage.Change | frontend/src/pages/Login.js:21 | the named input takes the value |
| SignIn.LoginPage.Submit | frontend/src/pages/Login.js:23-34 | `login` is called with exactly (email, password) when both are filled; otherwise the message is shown and the button is re-enabled |
| SignIn.LoginPage.Finish | frontend/src/pages/Login.js:36-41 | success navigates; failure shows the message and re-enables the button |
| SignIn.ResubmitClearsError | frontend/src/pages/Login.js:25-31 | a failed submit's message is gone once the next submit starts |
| AddTransaction.Assign | frontend/src/pages/AddTransaction.js:62 | assigning a string under `"__proto__"` leaves a plain object as it was; any other key is set |
| AddTransaction.FlattenedKeys | frontend/src/pages/AddTransaction.js:59-64 | the object's keys are exactly the keys of pairs with both key and value filled, except `"__proto__"`, which the prototype setter swallows |
| AddTransaction.FlattenedLastWins | frontend/src/pages/AddTransaction.js:59-64 | a key takes the value of its last kept pair; the key `"__proto__"` is never held |
| AddTransaction.FlattenedIgnoresBlank | frontend/src/pages/AddTransaction.js:61 | a pair with an empty key or value adds nothing |
| AddTransaction.Flatten | frontend/src/pages/AddTransaction.js:59-64 | the `forEach` loop, assigning each filled pair to a plain object, builds the object `Flattened` describes |
| AddTransaction.AddTransactionForm.constructor | frontend/src/pages/AddTransaction.js:13-28 | the form starts as type "Expense", dated with the clock's date text, with everything else empty (`InitialDateStored`: that text, `IsoDateString` of today, is stored as today) |
| AddTransaction.AddTransactionForm.Input | frontend/src/pages/AddTransaction.js:31-33 | the named input takes the value; nothing else changes |
| AddTransaction.AddTransactionForm.AddCustomField | frontend/src/pages/AddTransaction.js:36-38 | an empty pair is appended and the earlier pairs are unchanged |
| AddTransaction.AddTransactionForm.ChangeCustomField | frontend/src/pages/AddTransaction.js:40-44 | only the named part of the pair at the index changes; the length and the other pairs are kept |
| AddTransaction.AddTransactionForm.RemoveCustomField | frontend/src/pages/AddTransaction.js:46-50 | `splice(index, 1)` removes exactly that pair, keeps the order and shortens the list by one; an index past the end removes nothing |
| AddTransaction.AddTransactionForm.ChooseFile | frontend/src/pages/AddTransaction.js:25 | the chosen file replaces the form's file |
| AddTransaction.AddTransactionForm.Submit | frontend/src/pages/AddTransaction.js:53-76 | submit clears the error, disables the button and posts the fields with the flattened custom fields |
| AddTransaction.AddTransactionForm.Finish | frontend/src/pages/AddTransaction.js:78-85 | success navigates; failure shows the message or "An error occurred adding the transaction." and re-enables the button |
| AddTransaction.ServerBody | backend/routes/transactions.js:25 | of this form's fields, the create route reads only the date |
| AddTransaction.FormRecordCarriesNoAmounts | backend/routes/transactions.js:25-38 | whatever is typed, the record this form creates has all amounts 0 and all texts empty |
| AddTransaction.InitialDateStored | frontend/src/pages/AddTransaction.js:17 | the form's initial date is stored as that day |
| Flows.FetchQuery | frontend/src/pages/Dashboard.js:25-32 | the fetch sends the year, plus the month exactly in month view, and no date range |
| Flows.FetchSelectsPeriod | backend/routes/transactions.js:59-67 | for years outside 0..99, the dashboard's fetch has a window exactly when its period lies in the JavaScript `Date` range, and that window selects exactly the records of the period; for any other period the GET answers 500 |
| Flows.SavedRowListed | frontend/src/pages/Transactions.js:58-73 | a saved sheet row is stored on the chosen day of the selected month, and the sheet's own fetch lists it |
| Flows.Normalized | frontend/src/pages/Transactions.js:91-97 | the record with each missing amount written as 0 has the same amount values |
| Flows.EditSaveKeepsRecord | frontend/src/pages/Transactions.js:87-117 | an edit saved unchanged keeps the date, texts, proof and every amount's value |

## Left out

- Floating-point amounts, and `toLocaleString`/`toLocaleDateString` formatting of numbers and dates. Amounts are integers and dates are triples; the TOTAL row carries the balance as a number.
- Time zones and time of day. `new Date(...)` in local time is modelled on calendar days only. So are the 23:59:59.999 ends of the windows and `Date.now()` for a POST without a date.
- Flows.EditSaveKeepsRecord, Flows.SavedRowListed, Flows.FetchSelectsPeriod, Dashboard.MonthlyBreakdown: hold when the browser and the server both run on UTC. The server stores a `YYYY-MM-DD` date as midnight UTC, while the pages read days and months back in local time (`getDate()` at frontend/src/pages/Transactions.js:90, `getMonth()` at frontend/src/pages/Dashboard.js:64) and the server builds its windows in its own local time. West of UTC, a record stored on 5 March opens for editing on day 4, and saving it unchanged moves it to 4 March.
- Ledger.SortByDate: also stands for the store's `sort({ date: 1 })`. MongoDB does not promise an order among records of the same date; the model gives them the client's stable insertion order.
- Text.NumberOrZero: reads integer numerals only (an optional sign, digits, white space around them). Decimals, exponents, hex and "Infinity" are read as not-a-number, which becomes 0.
- Store.ParseIntPrefix: base 10 only; the `0x` prefix `parseInt` accepts is not modelled.
- Store.ExtName: for names without a directory part, which is what the upload's `originalname` is.
- AddTransaction.AddTransactionForm.constructor: takes the clock's `toISOString().split('T')[0]` text as its parameter instead of computing it from a `Date`. The lemma `InitialDateStored` states that this text, for a day in years 0-9999, is stored as that day.
- Calendar.ParseIsoDate: reads only `YYYY-MM-DD`. Any other text is an invalid date, so the save fails with a 500. Other forms `new Date(string)` accepts are not modelled.
- Auth.Authenticate: `jwt.verify` is a parameter. A token whose payload has no `user` is modelled as one that does not verify, not as a request proceeding with an undefined user.
- SignIn.RegisterCheck: the password length counts characters. JavaScript's `length` counts UTF-16 code units, which differs for characters outside the Basic Multilingual Plane.
- Flows.FetchSelectsPeriod: stated for years outside 0..99, which the `Date` constructor reads as 1900..1999.
- Sheet.SheetPage.constructor: requires a clock date (a real date after year 99), which every `new Date()` the page can see is.
- The HTTP calls (axios), `localStorage` and the whole authentication context. The cache's methods take the server's answer as a parameter, split into the request's start and its answer where the page changes state in between.
- Races between overlapping fetches, a concurrency matter.
- The redirects of the sign-in pages when already authenticated (rendering), and `navigate`, which becomes a returned flag.
- The sheet's and the add form's proof-file inputs and `isSubmitting` on the sheet. A chosen file reaches the store as the `upload` parameter of its routes.
- Typing in the sheet's row inputs (`handleNewTxChange`, `handleEditChange`). The day selector is modelled (`ChooseDay`); the other inputs are free text or numbers that `RowBody` carries as typed.
- The delete confirmation dialog: the cache models the delete once it is confirmed.
- mongoose persistence. The following are not modelled:
  - the `populate('createdBy', …)` of a list;
  - the `timestamps` fields;
  - the validation failure of a malformed id (a 500 where the model answers 404);
  - a database that fails for other reasons.
- multer's directory creation and disk writes. The directory is a set of paths, and `fs.existsSync` before an unlink is the set difference.
- Store.UploadTimesDistinct: two uploads in the same millisecond would share a path; only different times are shown to give distinct paths.
- Chart.js datasets, jsPDF/autoTable drawing and canvas image decoding. The report is a list of rows and appendix pages, and the image loader is a parameter.
- Cache.RemoveById, Dashboard.WithProof: membership and order are proved in the lemmas beside them rather than in their own contracts.

## Findings

| source | as written | input that shows it | evidently intended | confidence | as-written member | corrected member |
|---|---|---|---|---|---|---|
| frontend/src/pages/Transactions.js:33-38 | after a month change the new row keeps the day it got for the previous month | open the sheet on 31 January 2024, go to February, save the new row: "2024-02-31" is sent and stored as 2 March 2024 | the new row moves to the default day of the new month, always a day the month has | not executed | Sheet.SheetPage.SelectionChangedAsWritten | Sheet.SheetPage.SelectionChanged |
| backend/routes/transactions.js:23-50 | multer stores the uploaded proof before the handler runs, and a save that fails on an unreadable date leaves it on disk with no record naming it | POST /api/transactions with a proof file and `date` = "yesterday" | a request that fails stores no file | not executed | Store.TransactionStore.CreateAsWritten | Store.TransactionStore.Create |
| backend/routes/transactions.js:83-86 | multer stores the uploaded proof before the handler runs, and a 404 (or a failed save) leaves it on disk with no record naming it | PUT /api/transactions/missing with a proof file | a request that fails stores no file | not executed | Store.TransactionStore.UpdateAsWritten | Store.TransactionStore.Update |
| backend/routes/transactions.js:100-108 | with a new proof, the old proof file is deleted before the save, so a save that fails leaves the record naming a deleted file | PUT on a record with a proof, with a new proof and `date` = "yesterday" | the old proof is deleted only once the new record is saved | not executed | Store.DeletedProofExample | Store.TransactionStore.Update |
