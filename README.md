# SpendingTracker — a Dafny model of the tracker's store, handlers, reports and client loops

SpendingTracker is a small personal-finance application. An Express server
keeps expenses and credit-card payments in SQLite. A browser client lists
them, reports on them and copies a past month into today. This project models
the part of it that decides what is stored and what is reported:

- **The store** (`server/database.js`): five tables, their UNIQUE, CHECK and
  foreign-key constraints, AUTOINCREMENT ids, and the start-up seeding of the
  three catalogs with `INSERT OR IGNORE` (module `Schema`, class
  `Schema.Store`).
- **The catalog handlers** (`server/index.js`): the find-or-create resolver for
  expense types and categories, the strict payment-method lookup, and the
  payment-method create, update and delete handlers with their in-use guard
  (module `Catalog`).
- **The ledger handlers**: create, update and delete for expenses and for
  credit-card payments, and the two list endpoints with their optional
  filters and `ORDER BY date DESC` (module `Ledger`).
- **The reports**: the yearly and monthly grouped reports, the monthly
  "Others" reconciliation of card payments against itemised card expenses,
  the two Excel exports' content (totals, per-type sheets, sheet-name
  sanitiser), the credit-card name union and `getMonthName` (module
  `Reports`).
- **The client** (`dist/client/app.js`): year selectors, the previous-month
  default of the duplication form, `getMonthName`, `displayReport`, the
  recent-list query parameters and their limit of 20, and the two duplication
  loops that post a copy of every listed row (module `Client`).

Supporting modules: `Wrappers` (Option, Result), `Text` (code-point order,
`padStart`, decimal rendering and `parseInt`, `trim`, calendar dates and
`strftime`), `Sorting` (a stable insertion sort and `filter`) and `Grouping`
(group-by in first-appearance order).

Each table of the store is a sequence in rowid order, with its AUTOINCREMENT
counter beside it. `Schema.Db` is the store as a value. Every handler is a
function from a store and a request to the new store and the response. The
store class and the handler methods change the class's fields, and their
contracts tie the new state to those functions. `Schema.DbValid` collects the
constraints:

- ids strictly increase and stay below the counter;
- catalog and payment-method names are unique and trimmed;
- every expense names existing catalog rows, has a calendar date and a
  non-negative amount;
- every card payment has a calendar date, a non-negative amount and a trimmed
  card name.

Every handler that changes the store is proved to keep `DbValid`.

Choices the model makes where the code is specific:

- **Validation order.** `notEmpty()` runs before `trim()`, as the
  express-validator chains are written. A name of spaces only passes
  validation and is stored as the empty string.
- **Expense description.** On create, a description that was sent is trimmed
  (`optional().trim()`). The update handler has no validator for it, so it is
  stored as sent.
- **Partial effect of a failed create or update.** The type and the category
  are found or created before the payment method is looked up. When that
  lookup fails, the two catalog rows it created remain. The model keeps this:
  a refused post leaves the expenses and payment methods unchanged, but the
  catalogs may have grown.
- **The Others line.** The code writes the expense type `'Others'` and the
  category `"<card> - Others"`.
- **Dates.** `isISO8601` is modelled by its calendar-date form `YYYY-MM-DD`,
  with a month 01..12 and a day 01..31 whatever the month, as the
  non-strict validator admits. `strftime('%Y')` is the year characters of
  such a date, and NULL (no match) for anything else. `strftime('%m')`
  normalises the date first: a day past the end of its month rolls over into
  the next month, so "2023-02-31" is in March and "2023-04-31" in May.
  December has 31 days, so the year never changes.
- **Grouping into `{}`.** The exports and `displayReport` group the report
  lines by a `reduce` into a plain object and read the groups back with
  `Object.entries`. That throws for a type named like a property every
  object inherits (`constructor`, `toString`, ...), and lists the types that
  read as array indices ("9", "10") first, in numeric order. Both behaviours
  are modelled (module `JsObjects`) and recorded under "## Findings"; the
  rest of the model uses the grouping the code evidently intends, one sheet
  or block per type in first-appearance order.
- **`parseInt`.** The month of the export title is read with `parseInt`
  without a radix: leading white space is skipped, one sign is read, and
  "0x" selects base 16.
- **Amounts.** Amounts are integers (cents). `isFloat({ min: 0 })` becomes
  "a number was sent and it is not negative". A request amount is an
  `Option<int>`, and None stands for a value that is not a number.
- **Undefined row order.** Where SQL leaves the order unspecified, the model
  fixes one:
  - GROUP BY without ORDER BY yields the groups in first-appearance order;
  - ties under ORDER BY keep insertion order (a stable sort).

  Every property proved about such a result either does not depend on this
  order or is about membership and totals.

## Model

| member | source | states |
|---|---|---|
| Text.ParseIntOfNatToString | server/index.js:684 | `parseInt` of the decimal rendering of any natural number gives that number back |
| Text.PadStart2 | server/index.js:391 | `padStart(2, '0')`: a string of two or more characters is unchanged; a shorter one becomes two characters that end with it, the added ones all '0' |
| Text.ParseIntOfDigits | server/index.js:684 | `parseInt` of a run of decimal digits, ended by the end of the text or by a non-digit, gives the digits' value |
| Text.ParseIntSkipsSpace | server/index.js:684 | `parseInt` skips white space in front of the number |
| Text.ParseIntSign | server/index.js:684 | one '-' in front negates the value and one '+' keeps it |
| Text.ParseIntHex | server/index.js:684 | after "0x" the digits are read in base 16 |
| Text.DateMonthRollOver | server/index.js:224 | `strftime('%m')` of a date whose day lies in its month is that month's two digits; a day past the month's end gives the next month, which is never past December |
| Text.MonthTextRoundTrip | dist/client/app.js:321 | the two-digit month text of 1..12 is two digits and parses back to the month |
| Text.Trim | server/index.js:257 | `trim()` yields a string with no white space at either end, obtained by dropping only white space from both ends |
| Text.TrimIdempotent | server/index.js:257 | trimming twice is trimming once |
| Text.LexLeTotal | server/index.js:586 | the code-point string order used by ORDER BY on names compares any two strings |
| Text.LexLeTransitive | server/index.js:586 | that order is transitive |
| Sorting.Sort | server/index.js:243 | the ORDER BY sort is a permutation of its input: same length, same multiset of rows |
| Sorting.SortSorted | server/index.js:243 | the ORDER BY sort yields a sequence ordered by the given total preorder |
| Sorting.SortMembership | server/index.js:243 | sorting keeps exactly the same elements |
| Sorting.Filter | server/index.js:240-241 | a WHERE clause keeps exactly the elements that satisfy it, each as often as it occurs, and no others |
| Grouping.GroupBySum | server/index.js:375 | grouping loses and duplicates nothing: the groups' sums and sizes add up to those of the input |
| Grouping.GroupByKeys | server/index.js:375 | the group keys are pairwise distinct and are exactly the keys that occur in the input |
| Schema.ParseKind | server/database.js:42 | the CHECK constraint admits exactly 'credit_card' and 'bank_account' |
| Schema.KindRoundTrip | server/database.js:42 | every payment kind's text reads back as that kind |
| Schema.SeedNamesFacts | server/database.js:90-94 | the INSERT OR IGNORE loop keeps a catalog valid and its rows as a prefix, and afterwards the catalog holds exactly its former names plus the seeded ones |
| Schema.SeedNamesNoop | server/database.js:90-94 | seeding names that are all present adds no row, and the AUTOINCREMENT counter moves on by one per name, since SQLite draws the id before the UNIQUE check |
| Schema.SeedNamesNext | server/database.js:90-94 | seeding moves the counter on by one per name, whether the name is inserted or ignored |
| Schema.SeedMethodsNoop | server/database.js:118-122 | seeding payment methods that are all present adds no row and moves the counter on by one per method |
| Schema.SeedMethodsNext | server/database.js:118-122 | seeding payment methods moves the counter on by one per method |
| Schema.SeedNamesFresh | server/database.js:104-108 | seeding distinct absent names appends one row per name, in list order, with consecutive ids |
| Schema.SeedMethodsFacts | server/database.js:118-122 | seeding payment methods keeps the table valid and its rows as a prefix, and leaves every default name present |
| Schema.SeedFacts | server/database.js:72-122 | start-up seeding keeps the store valid, only appends to the three catalogs, leaves expenses and payments untouched and makes every default present |
| Schema.SeedIdempotent | server/database.js:90-122 | running the start-up seeding a second time adds no row to any table; only the three counters move, by 13, 4 and 4 |
| Schema.FreshStoreContents | server/database.js:74-116 | a new database holds 13 expense types, 4 categories and 4 payment methods: one bank account and three credit cards |
| Schema.Store.constructor | server/database.js:23-70 | a new store is empty and valid |
| Schema.Store.Initialize | server/database.js:23-123 | start-up keeps the store valid and leaves it as the seeding function says |
| Schema.Store.SeedExpenseTypes | server/database.js:90-94 | the loop over the default expense types leaves the table as the INSERT OR IGNORE fold over the list |
| Schema.Store.SeedCategories | server/database.js:104-108 | the loop over the default categories leaves the table as the INSERT OR IGNORE fold over the list |
| Schema.Store.SeedPaymentMethods | server/database.js:118-122 | the loop over the default payment methods leaves the table as the INSERT OR IGNORE fold over the list |
| Catalog.FindByName | server/index.js:20-31 | the lookup finds nothing exactly when no row has the name; when it finds an id, a row with that id and name exists |
| Catalog.FindOrCreateFacts | server/index.js:19-42 | find-or-create keeps the store valid, changes only the one catalog, returns the existing row when the name is present and appends exactly one row otherwise; afterwards exactly one row carries the name |
| Catalog.FindOrCreateIdempotent | server/index.js:19-42 | resolving the same name a second time changes nothing and returns the same id |
| Catalog.FindPaymentMethodByName | server/index.js:45-60 | the strict lookup fails, with the not-found error, exactly when no payment method has the name; otherwise it returns that method's id |
| Catalog.ValidateMethod | server/index.js:134-141 | the payment-method validators reject exactly an empty name or a type outside the two kinds, and pass on the trimmed name |
| Catalog.CreateMethodFacts | server/index.js:134-151 | creating a payment method fails, changing nothing, exactly when validation fails or the trimmed name is taken; otherwise it appends one method with the trimmed name and the sent type, and the store stays valid |
| Catalog.UpdateMethodFacts | server/index.js:154-177 | an update fails validation exactly when the validators reject the input; valid input reports 0 exactly when the id is absent, and then changes nothing; for a present id it fails on the UNIQUE constraint exactly when another method has the trimmed name, and reports 1 otherwise; on 1 only that row's name and type change, ids and every other row stay, and the store stays valid |
| Catalog.DeleteMethodGuard | server/index.js:180-204 | a method used by some expense is not deleted; otherwise the row with the id goes, every other row stays, the count reports whether one was removed, and every expense still names an existing method |
| Catalog.ReferencingExpenses | server/index.js:184 | the usage count is zero exactly when no expense names the method |
| Catalog.FindOrCreateItem | server/index.js:19-42 | the resolver on the store does what the find-or-create function says |
| Catalog.CreatePaymentMethod | server/index.js:134-151 | the handler keeps the store valid and does what the create function says |
| Catalog.UpdatePaymentMethod | server/index.js:154-177 | the handler keeps the store valid and does what the update function says |
| Catalog.DeletePaymentMethod | server/index.js:180-204 | the handler keeps the store valid and does what the delete function says |
| Ledger.ExpenseFailures | server/index.js:255-266 | the expense validators pass exactly for a calendar date, three non-empty names and a non-negative number; "date" and "amount" are reported exactly when those fail |
| Ledger.CreateExpenseFacts | server/index.js:255-307 | a rejected expense changes nothing; the not-found error arises exactly for valid input naming no payment method; the type and category rows exist afterwards; an accepted expense is appended with a fresh id, the sent fields, the trimmed description and the ids of the rows carrying the trimmed names; in every case the payment methods, the card payments and their counter stay and the two catalogs only grow |
| Ledger.CreateExpenseCatalogs | server/index.js:270-278 | posting an expense only appends to the type and category catalogs and never touches the payment methods or the card payments |
| Ledger.CreateExpenseValid | server/index.js:255-307 | posting an expense, accepted or not, keeps the store valid |
| Ledger.UpdateExpenseFacts | server/index.js:310-345 | a rejected update changes no expense; valid input naming an existing method reports 1 or 0 as the id exists; on 1 only the row with the id changes, to the sent fields and the rows carrying the trimmed names; in every case the payment methods, the card payments and their counter stay and the two catalogs only grow |
| Ledger.UpdateExpenseCatalogs | server/index.js:310-345 | updating an expense only appends to the type and category catalogs and never touches the payment methods or the card payments |
| Ledger.UpdateExpenseValid | server/index.js:310-345 | updating an expense keeps the store valid |
| Ledger.DeleteExpenseFacts | server/index.js:348-357 | deleting removes exactly the row with the id, keeps every other row and table, reports whether a row went, and keeps the store valid |
| Ledger.PaymentFailures | server/index.js:510-518 | the card-payment validators pass exactly for a calendar date, a non-empty card name and a non-negative number |
| Ledger.CreatePaymentFacts | server/index.js:510-538 | a payment is refused, changing nothing, exactly when validation fails; otherwise one payment with a fresh id, the date, trimmed card name, amount and notes is appended and the store stays valid |
| Ledger.UpdatePaymentFacts | server/index.js:541-565 | an update is refused exactly when validation fails; it reports 0, changing nothing, exactly when the id is absent; on 1 only that row becomes the sent payment |
| Ledger.DeletePaymentFacts | server/index.js:568-577 | deleting removes exactly the payment with the id, reports whether one went, and keeps the store valid |
| Ledger.JoinComplete | server/index.js:210-214 | on a valid store the three joins drop no expense: there is one listed row per expense, in order, carrying the names of the rows it points at |
| Ledger.ExpenseConditionsMeaning | server/index.js:219-242 | an expense passes the built WHERE clause exactly when it matches each filter that was sent: year, padded month, type, category and payment method |
| Ledger.ListExpensesFacts | server/index.js:207-252 | the expense list is ordered by date, newest first, and is a permutation of the joined rows that pass the filters |
| Ledger.PaymentConditionsMeaning | server/index.js:482-497 | a payment passes the built WHERE clause exactly when it matches each filter that was sent: year, padded month, card name |
| Ledger.ListPaymentsFacts | server/index.js:476-507 | the payment list is ordered by date, newest first, and is a permutation of the payments that pass the filters |
| Ledger.ResolveOnStore | server/index.js:270-278 | resolving type, category and method on the store does what the resolution function says |
| Ledger.CreateExpense | server/index.js:255-307 | the handler does what the create function says |
| Ledger.UpdateExpense | server/index.js:310-345 | the handler does what the update function says |
| Ledger.DeleteExpense | server/index.js:348-357 | the handler keeps the store valid and does what the delete function says |
| Ledger.CreateCardPayment | server/index.js:510-538 | the handler keeps the store valid and does what the create function says |
| Ledger.UpdateCardPayment | server/index.js:541-565 | the handler keeps the store valid and does what the update function says |
| Ledger.DeleteCardPayment | server/index.js:568-577 | the handler keeps the store valid and does what the delete function says |
| Reports.ReportOrderTotal | server/index.js:376 | `ORDER BY et.name, c.name, total DESC` is a total preorder on report lines |
| Reports.GroupedRowsFacts | server/index.js:362-377 | the grouped report is in report order; its lines are exactly the per-key groups of the period's expenses; each counts at least one expense; and totals and counts add up to the period's amount and number of expenses |
| Reports.BuildOthers | server/index.js:449-465 | the loop over the payment lines builds the Others lines of the reconciliation function |
| Reports.OthersSpecMembers | server/index.js:450-464 | an Others line exists exactly for a payment line whose residual over the card's expenses is positive, and carries that residual |
| Reports.OthersSpecDistinct | server/index.js:450-464 | given one payment line per card, there is at most one Others line per card |
| Reports.OthersMeaning | server/index.js:412-465 | a card gets an Others line exactly when it was paid in the month and its payments exceed its itemised expenses in the month, and the line carries the difference |
| Reports.OthersShape | server/index.js:455-464 | every Others line has type 'Others', category "<card> - Others", the credit-card kind, one transaction and a positive total equal to paid minus spent; no card has two |
| Reports.MonthlyReportOf | server/index.js:389-473 | the monthly handler returns the grouped lines followed by the Others lines |
| Reports.ReportTotals | server/index.js:359-473 | the monthly report is its grouped lines then its Others lines, and totals the period's expenses plus the Others amounts; the yearly report totals and counts exactly the year's expenses |
| Reports.MonthName | server/index.js:860-866 | `getMonthName` yields a name exactly for months 1..12 |
| Reports.MonthNameRoundTrip | server/index.js:860-866 | month numbers and month names map onto each other both ways |
| Reports.SanitizeSheetName | server/index.js:745 | the sheet name has the first 31 characters, with each of `\ / ? * [ ]` replaced by '_' and none left |
| Reports.SanitizeIdempotent | server/index.js:745 | sanitising a sanitised name changes nothing |
| Reports.WorkbookFacts | server/index.js:688-746 | an export lists the lines unchanged; its total is their sum; every detail sheet is the lines of one expense type under its sanitised name, every type has its sheet, and the sheets add up to the total |
| JsObjects.ObjectGroupBy | server/index.js:719-725 | the reduce into `{}` throws (None) exactly when some line's key names an inherited property |
| JsObjects.EntriesMembers | server/index.js:725 | `Object.entries` lists exactly the groups that were built, only reordered |
| JsObjects.EntriesOrder | server/index.js:725 | `Object.entries` lists the keys that are array indices first, in increasing numeric order |
| JsObjects.ObjectGroupByGroups | server/index.js:719-725 | without an inherited name among the keys the reduce succeeds and holds exactly the groups of the first-appearance grouping |
| Reports.WorkbookAsWrittenFacts | server/index.js:719-746 | the export as written fails exactly when an expense type names an inherited property; otherwise it is the intended workbook with the same sheets, listed in `Object.entries` order |
| Reports.InheritedTypeNameBreaksExport | server/index.js:719-723 | a report line of type "constructor" makes the export as written fail, where the intended workbook has one sheet for it |
| Reports.MonthlyExportFacts | server/index.js:599-757 | the monthly export lists the monthly report, Others lines included, and its total covers them |
| Reports.YearlyExportFacts | server/index.js:763-856 | the yearly export lists exactly the yearly report's lines; its total and transaction count are those of the year's expenses |
| Reports.MonthlyExportTitle | server/index.js:684 | for a month 1..12 the export's title is "Period: <month name> <year>" |
| Reports.CreditCardNamesFacts | server/index.js:580-596 | the card list is strictly increasing and holds exactly the names of card payments and of credit-card payment methods |
| Client.YearOptionsRange | dist/client/app.js:297-298 | the ten year options run down from five years ahead to four years back, strictly decreasing, and include the current year |
| Client.DuplicateDefaultIsPreviousMonth | dist/client/app.js:315-329 | the duplication form defaults to the calendar month before the current one, as a two-digit month, in a year that the selector offers |
| Client.MonthLabelOfSelector | dist/client/app.js:1312-1318 | every selector month "01".."12" is labelled with its English name |
| Client.DisplayReportFacts | dist/client/app.js:772-815 | the report page shows the no-data notice exactly for an empty report; otherwise its total and transaction count are the lines' sums; each block holds exactly the lines of one expense type and their total; no type has two blocks and every line's type has one |
| Client.DisplayReportAsWrittenFacts | dist/client/app.js:785-799 | the report page as written fails exactly for non-empty data with a type naming an inherited property; otherwise it is the intended page with the same blocks, listed in `Object.entries` order |
| Client.InheritedTypeNameBreaksReport | dist/client/app.js:785-789 | a report line of type "toString" makes the page as written fail, where the intended page has one block for it |
| Client.RecentExpensesMeaning | dist/client/app.js:818-844 | 'all' lists every expense, '' the current month of the current year, any other value that month of the current year |
| Client.RecentPaymentsMeaning | dist/client/app.js:888-911 | the same three choices for the recent card payments |
| Client.RecentExpensesShown | dist/client/app.js:856 | at most 20 listed expenses are shown, and none that is left out is newer than one shown |
| Client.RecentPaymentsShown | dist/client/app.js:923 | at most 20 listed payments are shown, and none that is left out is newer than one shown |
| Client.PostExpensesFacts | dist/client/app.js:1029-1061 | posting the copies counts each one as accepted or refused, keeps the store valid, and appends exactly one expense per accepted post |
| Client.PostPaymentsFacts | dist/client/app.js:1259-1288 | the same for the card-payment copies |
| Client.PostExpensesRows | dist/client/app.js:1033-1061 | posting the copies leaves the payment methods untouched and only appends to the catalogs; every appended expense is the row one of the bodies asked for |
| Client.DuplicatedExpenseRows | dist/client/app.js:1014-1061 | each expense the duplication adds is dated today and copies one listed expense of the chosen month: its type, category and payment-method names, its amount, its notes or '', and its trimmed description or '' |
| Client.DuplicatedPaymentRows | dist/client/app.js:1244-1288 | each payment the duplication adds is dated today and copies one listed payment of the chosen month: its card name, amount, and notes or '' |
| Client.PostExpenseCopies | dist/client/app.js:1029-1061 | the posting loop leaves the store and both counts as the fold over the copies says |
| Client.PostPaymentCopies | dist/client/app.js:1259-1288 | the posting loop keeps the store valid and leaves the store and both counts as the fold over the copies says |
| Client.DuplicateExpenses | dist/client/app.js:994-1084 | without a year and a month, or without confirmation, nothing changes; an empty period changes nothing; otherwise every listed expense is posted and the two counts are reported |
| Client.DuplicateCardPayments | dist/client/app.js:1224-1309 | the same for card payments, and the store stays valid |

## Findings

| source | as written | input that shows it | evidently intended | confidence | as-written member | corrected member |
|---|---|---|---|---|---|---|
| server/index.js:719-723 (also 820-824, dist/client/app.js:785-789) | `if (!acc[item.expense_type]) acc[...] = []; acc[...].push(item)` on a plain `{}`: for a type named like an inherited property the test finds the inherited function, no array is made and `.push` throws | one report line whose expense type is "constructor" (or "toString") | one sheet, or one block, per expense type | high, not executed | Reports.InheritedTypeNameBreaksExport, Client.InheritedTypeNameBreaksReport | Reports.WorkbookFacts, Client.DisplayReportFacts |

## Left out

- The SQLite connection, its file path and error callbacks are not modelled. A failed SQL call (a 500 response) is modelled only for the UNIQUE constraint on payment-method names.
- Express routing, CORS, JSON parsing and static file serving are not modelled. A handler is a function of the store and the request.
- The standalone catalog endpoints (GET /api/expense-types, GET /api/categories, GET /api/payment-methods, POST /api/expense-types, POST /api/categories) are not modelled. They are plain single-table reads and inserts outside the core.
- The backup, import/merge and clear-all database endpoints and POST /api/exit (`process.exit`) are not part of this model.
- Excel layout is not modelled: cell formats, column widths, the "$" and `toFixed(2)` renderings, the "Generated:" date line, and the XLSX buffer and headers. A workbook is modelled by its title, file name, totals, summary lines and detail sheets.
- Floating-point amounts are not modelled. Amounts are integers (cents), so the rounding of REAL sums is not captured.
- Text.IsIsoDate admits only the calendar-date form YYYY-MM-DD. The other ISO 8601 forms `isISO8601` accepts (with a time part, week or ordinal dates) are not modelled.
- Ledger.ExpenseFailures models `isFloat` only as "a number, not negative": the string forms of numbers are not modelled.
- The clock (`new Date()`) and the user's answer to `confirm` are not modelled. They are parameters: the current year and month, today's date and a boolean.
- The DOM, notifications, button states, console logging and the refresh calls after a duplication are not modelled.
- A duplication's fetch failures and network exceptions are not modelled. A post that fails counts as refused, like a non-2xx response.
- Concurrency is not modelled. The handlers and the client's posts run one at a time, in order.
- Where SQL leaves the order unspecified (GROUP BY without ORDER BY, ties under ORDER BY), the model fixes one order. This is first appearance for groups and insertion order for ties. Properties about such orders hold only for that choice.
- Reports.WorkbookFacts: states the intended grouping, one sheet per type in first-appearance order. The code's `Object.entries` order (array-index names first) is stated by Reports.WorkbookAsWrittenFacts. The xlsx library refuses a second sheet of the same name, which happens for an expense type "Summary" or two types that sanitise to the same name; the library is not part of this model, so that failure is not modelled.
- Client.DisplayReportFacts: states the intended grouping, one block per type in first-appearance order. The code's `Object.entries` order (array-index names first) is stated by Client.DisplayReportAsWrittenFacts.
- Reports.SanitizeSheetName: cuts after 31 characters (code points), where `substring(0, 31)` counts UTF-16 code units. A name with characters outside the Basic Multilingual Plane keeps more of them in the model, and a Dafny string cannot hold the lone surrogate such a cut can leave.
- Text.ParseInt: yields exact integers, where `parseInt` rounds to a double; the difference shows only for numbers past 2^53.
- Ledger.CreateExpense: does not state that the store stays valid. Its contract ties the new state to the create function, and Ledger.CreateExpenseValid proves that function keeps the store valid.
- Ledger.UpdateExpense: does not state that the store stays valid. Its contract ties the new state to the update function, and Ledger.UpdateExpenseValid proves that function keeps the store valid.
- Client.PostExpenseCopies: does not state that the store stays valid, for the same reason. Client.PostExpensesFacts proves it for the fold.
- Client.DuplicateExpenses: does not state that the store stays valid, for the same reason. Client.PostExpensesFacts proves it for the fold.
