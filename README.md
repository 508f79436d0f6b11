# Dashboard statistics, CSV export and user controller — a Dafny model

This project models the three pieces of logic of a Next.js and Prisma admin dashboard
that do more than pass data through. Everything verifies in Dafny 4.11.

- **Statistics** (`Stats`, `stats.dfy`).
  - `usersByRole` reshapes the rows of a group-by on `role`, one to one.
  - `eventsByMonth` folds the rows of a group-by on `date` into a dictionary keyed by
    the French month name of the date, then lists its entries in insertion order.
  - The fold is a `method` with a `while` loop over a `map<string, nat>` and a list of
    keys in the order they were inserted. It is proved equal to `MonthBuckets`, a
    definition stated on values: one bucket per distinct label, in order of first
    occurrence, holding the sum of the counts of the rows with that label.
- **CSV export** (`StatsExport`, `stats_export.dfy`, with `Text`, `text.dfy`).
  - Three lists of selected records become a fixed list of rows:
    - a summary block;
    - then a users section, a companies section and an events section, each made of a
      title row, a header row and one row per record;
    - empty rows between the sections.
  - Cells are joined by `,` and rows by a line break, with no quoting or escaping.
  - `Text` defines JavaScript's `join` and `split` on strings, plus decimal rendering of
    a number, and proves that they undo each other.
  - The lemmas read the exported text back, line by line and field by field.
- **User controller** (`UserController`, `user_controller.dfy`).
  - The password-free projection that every read and write but `deleteUser` applies.
  - Hashing of the password on create, and on update only when the password is truthy.
  - The ordering of `getUsers`, newest first.
  - The rule that turns any failure into an `Error`.

Calls into code the model cannot see become parameters:
- the locale formatting of dates: `monthLabel`, `dateLabel`;
- bcrypt: `hash`;
- the data store. A read is a snapshot of its rows, or the failure it raised. A write is a
  function from the payload sent to the store's answer.

`Models.User` (`models.dfy`) is the stored user row. `Wrappers` (`wrappers.dfy`) holds
`Option` and `Result`.

Two behaviours of the controller are easy to misread; the model states them as the code has them:
- **Error messages.** A failure is rethrown with the original `error.message` whenever the
  thrown value is an `Error`. The fixed, operation-specific message ("Failed to fetch
  users", and so on) is used only for other thrown values (`Rethrow`).
- **Re-hashing on update.** `updateUser` hashes the password only when it is truthy, so a
  patch carrying an empty password reaches the store unhashed (`UpdatePayload`).

## Model

| member | source | states |
|---|---|---|
| Stats.UsersByRole | app/api/stats/route.ts:19-25 | one entry per grouped row, in the same order, with the role copied and the count equal to the row's `_count` |
| Stats.FirstOccurrences | app/api/stats/route.ts:32-41 | the keys of the accumulator: exactly the labels that occur, each once, never more than the input has |
| Stats.IndexOf | app/api/stats/route.ts:32-41 | the position at which a key is first inserted: it holds the key, and no earlier position does |
| Stats.MonthBuckets | app/api/stats/route.ts:32-41 | at most one bucket per grouped row, no bucket for an empty input, no month label twice |
| Stats.Bump | app/api/stats/route.ts:34 | the assignment `acc[month] = (acc[month] or 0) + _count`; no contract of its own, its meaning is carried by `Stats.AccumulateStep` |
| Stats.Insert | app/api/stats/route.ts:34 | the key order of the dictionary after that assignment (a new key goes last); no contract of its own, its meaning is carried by `Stats.AccumulateStep` |
| Stats.Entries | app/api/stats/route.ts:38-41 | `Object.entries(months).map(...)` in key-insertion order; no contract of its own, its meaning is carried by `Stats.ListingIsBuckets` |
| Stats.AccumulateStep | app/api/stats/route.ts:33-34 | one step of the reduce, which adds the row's count to its label's entry (0 when absent), keeps the accumulator equal to the per-label sums over the rows seen so far, with first-seen key order |
| Stats.MonthTotalOfAbsent | app/api/stats/route.ts:34 | a label no row carries has total 0, the default for a missing key |
| Stats.ListingIsBuckets | app/api/stats/route.ts:38-41 | listing the entries of the final accumulator in insertion order gives `MonthBuckets` |
| Stats.EventsByMonth | app/api/stats/route.ts:28-42 | the loop over the grouped rows returns exactly `MonthBuckets` of its input |
| Stats.LabelsAt | app/api/stats/route.ts:33 | the label of row i is the month label of that row's date |
| Stats.BucketIffLabelled | app/api/stats/route.ts:32-41 | a month has a bucket if and only if some row's date carries that label, and then its count is that label's total |
| Stats.FirstOccurrencesOrder | app/api/stats/route.ts:32-41 | distinct keys come out in the order of their first occurrence in the input |
| Stats.BucketsInFirstOccurrenceOrder | app/api/stats/route.ts:32-41 | buckets appear in the order in which their label first occurs among the rows |
| Stats.TotalOverStep | app/api/stats/route.ts:32-36 | adding one row to the input raises the sum over a list of distinct labels by that row's count exactly when its label is in the list |
| Stats.TotalOverBuckets | app/api/stats/route.ts:32-36 | the counts of the buckets for a list of labels sum to the per-label totals over that list |
| Stats.TotalOverLabels | app/api/stats/route.ts:32-36 | summed over every distinct label, the per-label totals give the sum of all `_count` |
| Stats.BucketsSumToRows | app/api/stats/route.ts:32-36 | the bucket counts sum to the sum of `_count` over all grouped rows |
| Stats.MonthTotalIncludes | app/api/stats/route.ts:33-34 | a row's count is part of its label's total |
| Stats.SameLabelMerges | app/api/stats/route.ts:33-34 | two rows whose dates have the same month name (for instance January of two years) land in one bucket together |
| Stats.BucketHoldsLabelTotal | app/api/stats/route.ts:33-41 | the label of every row has a bucket, and that bucket is the label with its total |
| Text.Join | app/api/stats/export/route.ts:77 | `Array.prototype.join` on strings; no contract of its own, its meaning is carried by `Text.SplitJoin` and `Text.JoinSplit` |
| Text.SplitJoin | app/api/stats/export/route.ts:77 | splitting a join gives the parts back when at least one part exists and no part holds the separator |
| Text.JoinSplit | app/api/stats/export/route.ts:77 | joining a split gives the string back, for every string |
| Text.JoinPair | app/api/stats/export/route.ts:43-45 | a two-cell row joins to its first cell, a comma and its second cell |
| Text.JoinHasSeparator | app/api/stats/export/route.ts:77 | two parts or more always leave a separator in the joined text |
| Text.JoinAvoids | app/api/stats/export/route.ts:77 | joining adds no character but the separator |
| Text.SplitTrailingSeparator | app/api/stats/export/route.ts:77 | a text ending in the separator splits with an empty last part |
| Text.NatToDecimal | app/api/stats/export/route.ts:43-45 | a list length becomes a non-empty string of digits without a leading zero |
| Text.DecimalRoundTrip | app/api/stats/export/route.ts:43-45 | the digits read back as the number |
| Text.DigitsAvoidSeparators | app/api/stats/export/route.ts:43-45 | a number's digits hold neither a comma nor a line break |
| StatsExport.UserCells | app/api/stats/export/route.ts:50-56 | a user's row: name, email, role, status, formatted creation date; no contract of its own, read back by `StatsExport.UserLineFields` |
| StatsExport.CompanyCells | app/api/stats/export/route.ts:61-66 | a company's row: name, sector, city, formatted creation date; no contract of its own, read back by `StatsExport.CompanyLineFields` |
| StatsExport.EventCells | app/api/stats/export/route.ts:71-76 | an event's row, defined only when the event has a company; no contract of its own, read back by `StatsExport.EventCompanyField` |
| StatsExport.CsvRows | app/api/stats/export/route.ts:40-76 | the array literal of rows; no contract of its own, its layout is stated by `StatsExport.RowCount`, `SummaryFirst`, `UsersSectionSecond`, `CompaniesSectionThird` and `EventsSectionLast` |
| StatsExport.JoinedRows | app/api/stats/export/route.ts:77 | `rows.map(row => row.join(','))`: one string per row |
| StatsExport.Serialise | app/api/stats/export/route.ts:77 | the joined rows joined by line breaks; no contract of its own, read back by `StatsExport.SerialisedLines` and `SerialisedEnd` |
| StatsExport.CsvText | app/api/stats/export/route.ts:40-77 | `csvContent`; no contract of its own, read back by `StatsExport.ExportLines` and the line lemmas |
| StatsExport.Export | app/api/stats/export/route.ts:40-90 | the export fails, with the fixed error message, exactly when some event has no company (`event.company.name` throws); otherwise it is the CSV text |
| StatsExport.RowCount | app/api/stats/export/route.ts:40-76 | 13 rows of structure plus one row per user, company and event |
| StatsExport.SummaryFirst | app/api/stats/export/route.ts:42-46 | the title row, the three totals as label and decimal length, then an empty row |
| StatsExport.UsersSectionSecond | app/api/stats/export/route.ts:48-57 | the users' title and header rows, then the users' rows in input order, then an empty row |
| StatsExport.CompaniesSectionThird | app/api/stats/export/route.ts:59-67 | the companies' title and header rows right after the users section, then the companies' rows in input order, then an empty row |
| StatsExport.EventsSectionLast | app/api/stats/export/route.ts:69-76 | the events' title and header rows, then the events' rows in input order, ending the report |
| StatsExport.RowsAvoidLineBreak | app/api/stats/export/route.ts:40-76 | when no field holds a line break, no cell of the report does |
| StatsExport.SerialisedLines | app/api/stats/export/route.ts:77 | splitting serialised rows on line breaks gives one line per row, that row joined by commas |
| StatsExport.BlockLines | app/api/stats/export/route.ts:77 | a run of consecutive rows reappears as the same run of lines |
| StatsExport.ExportLines | app/api/stats/export/route.ts:40-77 | the lines of the export are exactly the report's rows, each joined by commas |
| StatsExport.LineCount | app/api/stats/export/route.ts:40-77 | the export has 13 lines plus one per user, company and event |
| StatsExport.SummaryLines | app/api/stats/export/route.ts:42-46 | line 1 is the title; lines 2 to 4 are a label, a comma and the decimal length of each list, and those digits read back as the lengths; line 5 is empty |
| StatsExport.SectionFramingLines | app/api/stats/export/route.ts:46-70 | the sections come in the order users, companies, events; each starts with its title and header lines, and an empty line closes each but the last |
| StatsExport.UserLines | app/api/stats/export/route.ts:50-56 | the line at index 7 + i is the row of `users[i]` |
| StatsExport.CompanyLines | app/api/stats/export/route.ts:61-66 | the company lines follow the users section, in input order |
| StatsExport.EventLines | app/api/stats/export/route.ts:71-76 | the event lines end the text, in input order |
| StatsExport.UserLineFields | app/api/stats/export/route.ts:50-56 | when no field holds a comma, a user line splits back into exactly its 5 fields |
| StatsExport.CompanyLineFields | app/api/stats/export/route.ts:61-66 | when no field holds a comma, a company line splits back into its fields |
| StatsExport.EventCompanyField | app/api/stats/export/route.ts:71-76 | when no field holds a comma, an event line has 4 fields and the fourth is the company's name |
| StatsExport.SerialisedEnd | app/api/stats/export/route.ts:77 | serialised rows end without a line break when the last row has two cells or more |
| StatsExport.NoTrailingLineBreak | app/api/stats/export/route.ts:40-77 | the export is non-empty and does not end with a line break: rows are separated, not terminated |
| UserController.SelectRoundTrip | app/controllers/userController.ts:13-23 | the projection keeps every field but the password: the row rebuilds from it and its password, and back |
| UserController.Select | app/controllers/userController.ts:13-23 | the `select` clause shared by getUsers, getUserById (36-46), createUser (63-73) and updateUser (91-101): every field but `password`; no contract of its own, its meaning is carried by `UserController.SelectForgetsOnlyPassword` and `SelectRoundTrip` |
| UserController.SelectForgetsOnlyPassword | app/controllers/userController.ts:13-23 | two rows project alike if and only if they differ at most in their passwords |
| UserController.SelectAll | app/controllers/userController.ts:9-24 | every stored row is projected, in place |
| UserController.Rethrow | app/controllers/userController.ts:25-28 | the thrown Error carries the cause's message when the cause is an Error, the fixed fallback message otherwise |
| UserController.Answer | app/controllers/userController.ts:58-78 | a write succeeds exactly when the store does; its value is the projected row, its failure the rethrown cause |
| UserController.InsertNewestFirst | app/controllers/userController.ts:10-12 | inserting into a newest-first list keeps it newest first and adds exactly that user |
| UserController.SortNewestFirst | app/controllers/userController.ts:10-12 | the result is newest first and a permutation of the input |
| UserController.GetUsers | app/controllers/userController.ts:7-29 | on a successful read, every stored user projected without password, newest first, each exactly once; on a failed read, the rethrown cause with "Failed to fetch users" |
| UserController.FindById | app/controllers/userController.ts:34-35 | the row found is stored and has that id; nothing is found if and only if no row has the id |
| UserController.GetUserById | app/controllers/userController.ts:32-52 | the projection of a stored row with that id, `null` if and only if none has it, or the rethrown cause with "Failed to fetch user" |
| UserController.CreatePayload | app/controllers/userController.ts:57-62 | the payload's password is the hash of the given one, and every other field is copied unchanged |
| UserController.CreateUser | app/controllers/userController.ts:55-79 | the store is sent the hashed payload; its answer comes back projected, or its failure rethrown with "Failed to create user" |
| UserController.UpdatePayload | app/controllers/userController.ts:84-87 | the password is hashed if it is truthy, and the payload equals the patch otherwise; an empty password goes through unhashed; no other field changes |
| UserController.UpdateUser | app/controllers/userController.ts:82-107 | the copy-then-overwrite sends the store exactly `UpdatePayload`; the answer comes back projected, or the failure rethrown with "Failed to update user" |
| UserController.DeleteUser | app/controllers/userController.ts:110-119 | with no `select`, the deleted row comes back whole, password hash included, or the failure rethrown with "Failed to delete user" |

## Left out

- The data store's behaviour (`count`, `groupBy`, `findMany`, `findUnique`, `create`, `update`, `delete`, unique constraints, referential integrity) is foreign. Its results are inputs, and its writes are functions from payload to answer.
- The four totals of the statistics endpoint (`totalUsers`, `activeUsers`, `totalCompanies`, `totalEvents`) are plain store counts with no logic of their own.
- The error answers of both statistics routes. Apart from the export's failure on an event without a company, their only failures are store failures, mapped to a fixed HTTP 500 JSON body. The model keeps only the export's failure on a missing company and its error message.
- Date parsing and locale formatting (`new Date`, `toLocaleString`, `toLocaleDateString`) are abstract functions from a date to a string.
- bcrypt is an abstract total function. Its salt, its cost factor of 10, and the error it raises on a missing password are left out.
- HTTP responses and headers, `console.error`, and async/await are I/O plumbing.
- Stats.EventsByMonth: lists the buckets in key-insertion order. JavaScript's `Object.entries` would list integer-like keys first, and a key such as `__proto__` would be special. Locale month names are neither, so the model does not represent object keys.
- UserController.GetUsers: states newest-first order and the permutation, but not how users with equal `createdAt` are ordered. The store does not fix that order.
- UserController.UpdateUser: the fields' runtime types are not checked. A non-string password is outside the `UserPatch` type.
- The other controllers and routes forward straight to the store. The React pages and components, and the form schemas, are UI.
