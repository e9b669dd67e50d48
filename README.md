# my-wallet (Dompet Pintar) — a verified model of its core

The core of `wallet.py` is a personal-finance desktop program. This project models four parts of it:

- **The store** (`DatabaseManager`). It keeps a user table and a transaction table with the columns
  id, username, kind (`jenis`), category, description, amount and timestamp. Users register and log
  in. Transactions are added with the next AUTOINCREMENT id. Listings hold one user's rows, newest first.
  The yearly query groups a year's rows per (month, kind). Rows are deleted by id.
- **The amount field's typing formatter** (`format_rupiah_typing`). While the user types, it regroups
  a digit string with `.` as the thousands separator.
- **Submitting a transaction** (`simpan_transaksi`). This covers the form's validation order, the stored
  row, the cleared fields and the success message of the `Pemasukan` / `Pengeluaran` variant.
- **The dashboard and the archive**:
  - `refresh_data` folds the listing into the balance, the totals in and out, the table rows and the
    "boros" spending ratio;
  - `hapus_data` deletes the selected rows;
  - `export_csv` builds the records it writes, with the amount cleaned back to a bare number;
  - `ArsipWindow.load_data` builds the per-month income and expense table of one year.

Modules:

- `Wrappers` holds `Option`.
- `Text` holds the string machinery the program relies on:
  - decimal digits and `int()` on a digit string;
  - Python's `"{:,.0f}"` as exact grouping of an integer;
  - `str.replace` with a character or a substring;
  - SQLite's BINARY text order.
- `Store` holds rows, month keys, listings, deletion, the GROUP BY summary and the `Database` class.
- `Ledger` holds the formatter, validation, success messages, the table and totals fold, the spending
  ratio, export and the `Dashboard` class.
- `Archive` holds `load_data` and the `ArchiveWindow` class.

Amounts are `int`: the model's `float()` accepts only an optionally signed run of digits, whose value is
integral. The inputs Python's `float()` also accepts are listed under Ledger.Validate in "## Left out".

The code caps the ratio only from above and does not reject negative amounts:

- The spending ratio is only capped at 100 with `min(persen_boros, 100)`. It is never clamped below 0.
  A negative income total gives ratio 0 or 100, depending on the expense total.
- Amounts are accepted when negative. `float("-5")` succeeds, so `Validate(d, IntToString(n))` is
  `Accepted(n)` for every integer n and non-empty description d, and such a row counts against its
  side's total.

## Model

| member | source | states |
|---|---|---|
| Store.Database.constructor | wallet.py:36-63 | A fresh store has no users, no transactions and id counter 0, and satisfies the store invariant |
| Store.Database.Register | wallet.py:65-72 | Succeeds exactly when the username is new. Then it records the password; otherwise the users are unchanged (IntegrityError). Transactions are untouched |
| Store.Database.Login | wallet.py:74-77 | `cek_login` succeeds exactly when the user exists and the stored password equals the one given |
| Store.LoginAfterRegister | wallet.py:65-77 | After registering a new user, logging in with that password succeeds. Any other password for that user fails |
| Store.Database.Add | wallet.py:79-86 | Appends exactly one row carrying the given fields and timestamp. Its id is the previous counter plus one, greater than every existing id. The ids stay unique |
| Store.MonthField | wallet.py:96 | The month of a readable timestamp (`strftime('%m')`) is characters 6-7, and it is the key `f"{m:02d}"` of a month m in 1..12 |
| Store.MonthKeyRoundTrip | wallet.py:614 | The key `f"{i:02d}"` of month i parses back to i, and exactly the twelve keys "01".."12" parse |
| Store.OwnedBy | wallet.py:90 | The rows kept are exactly the rows of the given user (`WHERE username=?`) |
| Store.InsertByTime | wallet.py:90 | Inserting a row adds exactly that row to the multiset of rows, and the new head is either that row or the old head |
| Store.InsertKeepsNewestFirst | wallet.py:90 | Inserting into a newest-first list keeps it newest first |
| Store.SortNewestFirst | wallet.py:90 | `ORDER BY tanggal DESC`: the result is a permutation of the input, and timestamps never increase along it |
| Store.NewestFirstAllPairs | wallet.py:90 | In a newest-first list, every earlier row's timestamp is at or after every later row's timestamp under text order |
| Store.Listing | wallet.py:88-91 | `ambil_semua_data` holds the user's rows and no others, each as often as stored, newest first |
| Store.WithoutId | wallet.py:106 | `DELETE ... WHERE id=?` keeps exactly the rows whose id differs |
| Store.DeleteRemovesOne | wallet.py:104-107 | With unique ids, deleting a present id removes exactly one row. Deleting an absent id removes none |
| Store.WithoutIdKeepsUnique | wallet.py:104-107 | Deleting keeps ids unique |
| Store.DeleteHidesFromEveryListing | wallet.py:88-107 | After deleting an id, no user's listing contains a row with that id |
| Store.Database.Delete | wallet.py:104-107 | The store's rows become the old rows without that id. The users and the id counter are unchanged, and the invariant is kept |
| Store.WithoutIds | wallet.py:531-533 | Deleting a list of ids keeps exactly the rows whose id is none of them |
| Store.Database.DeleteAll | wallet.py:531-533 | Deleting the selected ids one by one leaves exactly the rows whose id is none of them. Users and the id counter are unchanged |
| Store.WithoutIdsStep | wallet.py:531-533 | Deleting the selection one id at a time equals deleting the whole extended selection |
| Store.InYear | wallet.py:98 | The rows kept are exactly the user's rows whose timestamp year equals the requested year |
| Store.GroupRows | wallet.py:95-100 | `GROUP BY bulan, jenis` with `SUM(nominal)`. There is one entry per distinct (month, kind) present, each entry's total is the sum of that group's amounts, and no entry is empty |
| Store.Database.List | wallet.py:88-91 | The store's listing for a user holds exactly that user's rows, each as often as stored, newest first |
| Store.Database.Yearly | wallet.py:93-102 | The store's yearly query summarises exactly that user's rows of that year |
| Store.YearlySummary | wallet.py:93-102 | `ambil_data_tahunan` summarises exactly that user's rows of that year, as GroupRows states |
| Store.EmptyYear | wallet.py:93-102 | A year with no rows for that user yields no summary entries |
| Text.NotAfterTotal | wallet.py:90 | SQLite's text order is total: of two timestamps, one is not after the other |
| Text.NotAfterTransitive | wallet.py:90 | SQLite's text order is transitive |
| Text.NotAfterReflexive | wallet.py:90 | SQLite's text order is reflexive: every timestamp is not after itself |
| Text.CanonicalOfParse | wallet.py:436 | `"{:,}".format(int(s))` with its separators removed is `s` without leading zeros ("0" for all zeros) |
| Text.GroupIsGrouped | wallet.py:436 | Grouping a canonical digit string puts the separator every three digits from the right |
| Text.GroupUngroup | wallet.py:436 | A correctly grouped string is the grouping of its own digits |
| Text.UngroupFormatInt | wallet.py:556 | Removing the separators from `f"{n:,.0f}"` gives back the plain decimal of n |
| Text.ParseIntToString | wallet.py:450 | `float()` of the decimal of an integer gives back that integer |
| Ledger.FormatTyping | wallet.py:427-438 | An empty or non-digit field (after removing dots) is left as it is. Otherwise the result is grouped in threes with `.` and its digits are the decimal of the typed number |
| Ledger.FormatTypingResult | wallet.py:427-438 | The field is left alone when it is empty after removing dots or contains a non-digit. Otherwise it is replaced by the digits without leading zeros, grouped in threes with `.` |
| Ledger.FormatTypingKeepsValue | wallet.py:427-438 | Formatting never changes the number the field denotes once dots are removed |
| Ledger.FormatTypingIdempotent | wallet.py:427-438 | Formatting an already formatted field changes nothing |
| Ledger.TypedAmountIsSubmitted | wallet.py:427-450 | A digit string typed into the field, formatted while typing and submitted with a description, is accepted as exactly that number |
| Ledger.Validate | wallet.py:440-450 | The checks run in order: an empty description is refused first (EmptyDescription), then an amount empty after removing dots (EmptyAmount), then one `float()` rejects (NotANumber). The form is accepted exactly when the description is non-empty and the amount parses, and it carries the parsed value |
| Ledger.IntegerAmountAccepted | wallet.py:443-450 | With a non-empty description, the text `str(n)` of every integer n is accepted as n, negative n included, since `float` takes a sign and there is no sign check |
| Ledger.SuccessMessageTemplate | wallet.py:132-142 | The message is the income text for kind "Pemasukan" and the expense text for any other kind, with the amount grouped by `,` |
| Ledger.Tally | wallet.py:479-500 | The loop produces what `Displays` describes: the totals are the sums of the income rows and of the other rows, the balance is income minus expense, and table line i shows row i's id, date, label, category, description and amount |
| Ledger.KindTotalSplit | wallet.py:485-493 | Each row adds to exactly one of the two totals. Together they add to the sum of all amounts |
| Ledger.KindTotalPermutation | wallet.py:483-493 | The totals depend only on which rows are listed, not on their order |
| Ledger.ListingTotals | wallet.py:478-493 | The dashboard totals over the sorted listing equal the totals over the user's rows in storage order |
| Ledger.TableRowFields | wallet.py:495-500 | A table line's amount is "Rp " followed by the amount grouped with ",". Its date is the first 10 characters of the timestamp. Its label is "Masuk" exactly for income and "Keluar" otherwise |
| Ledger.RatioTimesIncome | wallet.py:508-509 | With positive income, the ratio times the income is a hundred times the expense |
| Ledger.SpendRatio | wallet.py:506-511 | The ratio is non-negative whenever the expense total is. Without positive income it is 0 or 100 |
| Ledger.SpendRatioCases | wallet.py:507-511 | The ratio is out/in·100 for positive income, 100 when there is no positive income but positive expense, and 0 when neither total is positive |
| Ledger.BarValue | wallet.py:513 | The bar value never exceeds 100 or the ratio, and is one of the two |
| Ledger.Overspent | wallet.py:517-519 | The danger colour (ratio above 75) is used exactly when the bar shows more than 75 |
| Ledger.BarValueBounds | wallet.py:513-514 | The progress bar shows at most 100, and shows the ratio itself when that is below 100 |
| Ledger.OverspentThreshold | wallet.py:507-519 | The warning colour is used exactly when expense exceeds three quarters of positive income, or when there is no positive income and expense is positive. The ratio reaches 100 exactly when expense reaches income |
| Ledger.CleanAmount | wallet.py:556 | The cleaned amount contains no "," and is no longer than the displayed one |
| Ledger.ExportTable | wallet.py:536-557 | An empty table exports nothing, an empty path cancels, otherwise the records are the header and then one record per table line, in order |
| Ledger.Dashboard.Export | wallet.py:536-557 | Exporting the dashboard reports nothing to export exactly when its table is empty, cancels exactly when the table is non-empty and the path is empty, and otherwise writes to that path the header then one record per line on screen, in order |
| Ledger.CleanShowAmount | wallet.py:555-557 | Removing "Rp " and "," from the displayed amount gives the plain decimal of the stored amount, which parses back to it |
| Ledger.ExportOfRow | wallet.py:549-557 | A stored row's exported record is its id, date, label, category, description and bare amount |
| Ledger.ExportRecordsOfRows | wallet.py:536-557 | Export of a non-empty table to a chosen path writes the header, then one record per line in order, each amount parsing back to the stored amount |
| Ledger.Dashboard.constructor | wallet.py:253-272 | The dashboard starts with kind "Pengeluaran", the first category and empty fields, and its table and totals match the user's listing |
| Ledger.Dashboard.Refresh | wallet.py:474-524 | After refreshing, the table, balance and totals are those of the current listing. The store is unchanged |
| Ledger.Dashboard.OnAmountKeyRelease | wallet.py:427-438 | The amount field becomes its formatted text. Nothing else changes |
| Ledger.Dashboard.Submit | wallet.py:440-472 | A rejected form changes nothing and reports the first failing check. An accepted form appends one row with the user, kind, category, description, amount and time, and the next id, advancing the id counter by one. It then clears the description and amount, refreshes, and reports the variant's message |
| Ledger.Dashboard.Record | wallet.py:459-466 | Stores the new row with the next id and advances the id counter by one, clears the description and amount, keeps kind and category, and leaves the display in sync with the store |
| Ledger.Dashboard.DeleteSelected | wallet.py:526-534 | With no selection or no confirmation nothing changes. Otherwise the store loses exactly the rows whose ids were selected, the form fields keep their contents, and the dashboard is refreshed |
| Archive.LastTotal | wallet.py:616-621 | A non-zero entry left for a month and side is the total of some query row of that month and side |
| Archive.Cells | wallet.py:632 | An archive line shows the month name and two amounts which, with their "," separators removed, are the plain decimals of the month's income and expense |
| Archive.FillMonths | wallet.py:614-621 | Reports a bad key exactly when some query month is not "01".."12" (the KeyError). Otherwise each month's in and out entries are the last matching query total, or 0 |
| Archive.ListMonths | wallet.py:623-632 | Lists, in calendar order and each once, exactly the months with income or expense above 0, with their names and totals |
| Archive.LoadData | wallet.py:607-632 | `load_data` fails exactly on an unknown month key. Otherwise it shows the archive table of the query rows |
| Archive.SummaryKeysKnown | wallet.py:611-621 | The store's yearly summary never contains an unknown month key, so loading it never raises |
| Archive.LastTotalOfGroup | wallet.py:616-621 | With distinct keys, the first loop leaves for a month and side the total of that month's group of the given kind, or 0 if there is none |
| Archive.ArchiveTotals | wallet.py:93-102 | When all of a user's kinds are "Pemasukan" or "Pengeluaran", the archive's income and expense for a month are the sums of that user's rows of that year, month and kind |
| Archive.ArchiveWindow.constructor | wallet.py:580-605 | The archive window opens on year "2025" and shows that year's table |
| Archive.ArchiveWindow.Table | wallet.py:623-632 | The archive table has one line per shown month, holding its name and its income and expense as grouped numerals of those totals |
| Archive.ArchiveWindow.Load | wallet.py:607-632 | The shown table is the archive table of the store's yearly summary for the selected year |

## Left out

- The tkinter windows, the message boxes, the file dialog, colours, fonts and navigation between the
  login, register, dashboard and archive windows. The outcomes of the modelled handlers are returned as
  values instead (`SubmitOutcome`, `DeleteOutcome`, `ExportOutcome`).
- The sqlite connection and files. The tables are fields of `Store.Database`, and every commit is
  immediate.
- The clock. `datetime.now()` is the `now` parameter of `Store.Database.Add` and
  `Ledger.Dashboard.Submit`.
- Writing the CSV file, CSV quoting and the write error path. Export is modelled up to the records
  it would write.
- Ledger.Validate: `float()` is modelled as an optional sign followed by ASCII digits. Decimal
  points, exponents, surrounding whitespace, underscores, "inf" and "nan" are not accepted by the model.
- Ledger.FormatTyping: the number is grouped exactly. Python goes through a float, which loses
  precision above 2^53. Python's `isdigit` also accepts non-ASCII digits, which the model does not.
- The percentage label `f"{int(persen_boros)}%"` is not modelled. Only the bar value and the warning
  threshold are modelled.
- SQLite's `strftime` is modelled as substrings of "YYYY-MM-DD HH:MM:SS" timestamps. Date
  normalisation and invalid days are not modelled, and neither are rows whose timestamp is not of that
  form (the program always writes that form).
- The order of listing rows with equal timestamps is not fixed by SQLite's `ORDER BY tanggal DESC`.
  `Store.Listing` picks one order (the later-inserted row first among equals), and the dashboard
  display (`Ledger.Dashboard.InSync`) is stated against that order. The listing's contract itself
  only promises a newest-first permutation of the user's rows.
- The order of GROUP BY results is not fixed by the model. `Store.GroupRows` fixes one order, and
  `Archive.LoadData` is stated for any order.
- Treeview value conversion (tkinter turning numeric-looking strings into numbers) is not modelled. The
  table keeps the strings it was given.
- AUTOINCREMENT exhaustion at the largest rowid is not modelled. Ids are unbounded.
- `calendar.month_name` is taken in the English locale.
- Store.Database.Register: passwords are stored and compared as plain strings, as in the source. There
  is no hashing to model.
