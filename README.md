# Cash Tracker client, modelled in Dafny

Cash Tracker is a small personal-finance web client. It keeps a list of income
and expense transactions and per-user settings in a hosted backend. This
project models the client's logic in Dafny. The backend becomes an in-memory
store, and every backend call's success or failure is an input.

The model covers:

- **Dashboard** (`dashboard.dfy`). It computes over all transactions:
  - the income and expense totals, and the cash flow;
  - the saving rate. It is kept exact as a rational, and its displayed value
    is in integer tenths of a percent, rounded like `toFixed(1)` (half away
    from zero);
  - the three colour bands of the rounded rate, and the band of the progress
    bar, which uses the unrounded rate;
  - the bar width, capped at 100 %;
  - the five newest rows.

  A fetch replaces both lists on success and keeps both on error.
- **Transactions page** (`transactions.dfy`, with `query.dfy`, `calendar.dfy`
  and `store.dfy`):
  - The filters and sort order become a query: an optional type equality, an
    optional calendar-month window `[start of month, start of next month)` in
    UTC milliseconds, and at most one order clause.
  - A query has a meaning over the table: the rows that satisfy every clause,
    with none duplicated, ordered by the order clause.
  - The page's state is a class whose methods are the event handlers: save
    (with validation, then update or insert), edit prefill, add, cancel, the
    two-step delete, and the filter setters that refetch.
- **Settings page** (`settings.dfy`):
  - loading the user's row, with defaults for falsy values;
  - the upsert payload, with the budget coerced by `Number()`;
  - the loading flag around the save;
  - the confirmed bulk delete `.delete().neq("id", 0)`.
- **Shell** (`layout.dfy`, `sidebar.dfy`):
  - the theme, read from storage with the fallback "dark" and written back on
    every change;
  - the theme toggle;
  - the exact-match active menu link;
  - the mobile drawer flag;
  - the logout confirmation and sign-out.

`values.dfy` models the JavaScript form values the views hold. A field holds
typed text or a number copied from a row. Truthiness and `Number()` are
restricted to integers. `records.dfy` holds the two table rows.

In four places the code behaves in a way a reader might not expect. The model
follows the code:

- `handleSave` and `confirmDelete` never look at the outcome of their write.
  The form is reset, the modal closes and the list is refetched even when the
  insert, update or delete failed (`src/pages/Transactions.jsx:89-111`,
  `src/pages/Transactions.jsx:116-121`).
- The amount check is `!amount`. An amount prefilled from a row whose amount
  is 0 is the number 0, which is falsy, so that row cannot be saved without
  retyping the amount. The typed text "0" is truthy and is accepted.
- `handleLogout` does not close the confirmation modal. On success the app
  navigates to "/", which is outside the shell. On error the modal stays open.
- `clearTransactions` deletes every row whose id differs from 0. The table
  becomes empty because row ids are positive, an assumption about the database
  stated under "Left out".

## Model

| member | source | states |
|---|---|---|
| Values.TypedZeroIsTruthy | src/pages/Transactions.jsx:82 | the typed text "0" passes the `!amount` check; the prefilled number 0 and the empty text do not; all three convert to 0 |
| Values.Falsy | src/pages/Transactions.jsx:82 | an empty text or the number 0 fails `!amount`, and a falsy field converts to 0 |
| Values.ParseNumber | src/pages/Transactions.jsx:92 | `Number()` on input text: "" is 0, a digit string is its decimal value, and any text that converts is an optional minus sign followed by digits |
| Values.ToNumber | src/pages/Transactions.jsx:92 | `Number(amount)`: a number field is itself, the empty text is 0, and a digit string is its decimal value |
| Values.ParseShow | src/pages/Settings.jsx:42 | converting the decimal text of any integer gives back that integer |
| Calendar.Succ | src/pages/Transactions.jsx:50-51 | the next month is one position further on the line of months; December rolls over to January of the next year |
| Calendar.DaysInMonth | src/pages/Transactions.jsx:51 | every calendar month has 28 to 31 days |
| Calendar.MonthStart | src/pages/Transactions.jsx:48-56 | the start of a month's window is a UTC midnight; January starts on the first day of its year |
| Calendar.MonthStartSucc | src/pages/Transactions.jsx:49-51 | the window's end is the first instant of the next month, exactly that month's number of days after its start: a calendar month, not a fixed window (in UTC; see "Left out" for clients west of UTC) |
| Calendar.MonthStartMonotone | src/pages/Transactions.jsx:49-51 | a later month starts strictly later |
| Calendar.InMonth | src/pages/Transactions.jsx:48-56 | an instant is in a month's window exactly when it lies in the month's `DaysInMonth` days from its first instant, start included, end excluded |
| Calendar.MonthBoundaries | src/pages/Transactions.jsx:53-55 | the first instant of the month is in its window; the first instant of the next month is not, and belongs to the next month |
| Calendar.MonthsDisjoint | src/pages/Transactions.jsx:53-55 | the windows of two different months never share an instant |
| Calendar.EpochMonths | src/pages/Transactions.jsx:54 | January 1970 starts at instant 0 and February 1970 31 days later; December 1969 ends at 0 |
| Query.MatchesConcat | src/pages/Transactions.jsx:46-56 | chaining filters conjoins them, in both directions |
| Query.Filter | src/pages/Transactions.jsx:42-56 | a row is kept exactly when it satisfies every clause; nothing is added and duplicate-free input stays duplicate-free |
| Query.RowLeTotal | src/pages/Transactions.jsx:58-68 | any two rows are comparable under the order clauses |
| Query.RowLeTransitive | src/pages/Transactions.jsx:58-68 | the order is transitive |
| Query.SortRowsSorted | src/pages/Transactions.jsx:58-68 | sorting yields a list ordered by the order clauses |
| Query.Run | src/pages/Transactions.jsx:42-70 | the answer over scanned rows is sorted, is a permutation of the matching rows, holds exactly the matching rows, and has no duplicate when the scan has none |
| Query.ReverseFlipsDirection | src/pages/Transactions.jsx:64-68 | reversing a list sorted ascending on a column sorts it descending on that column |
| Query.AnswersSameRows | src/pages/Transactions.jsx:70-71 | two answers over the same table with the same filters list the same rows, whatever their order clauses |
| Query.SortedUnique | src/pages/Transactions.jsx:58-68 | two sorted arrangements of the same rows are equal when no two rows tie on every order key |
| Store.UpdateRow | src/pages/Transactions.jsx:90-93 | the update changes only type, category and amount of the row with that id; id, created_at and every other row stay; a missing id changes nothing |
| Store.DeleteRow | src/pages/Transactions.jsx:117 | exactly the row with that id is removed |
| Store.DeleteIdsOtherThan | src/pages/Settings.jsx:63-66 | only a row whose id equals the given value survives |
| Store.DeleteAllButZeroEmpties | src/pages/Settings.jsx:63-66 | with positive ids, deleting every id other than 0 leaves the table empty |
| Store.Backend.Select | src/pages/Transactions.jsx:70 | the rows returned answer the query: each one is a table row matching the filters, every matching row is there, none twice, in the requested order |
| Store.Backend.Insert | src/pages/Transactions.jsx:97-99 | one row is added under a fresh id with the given values and the server's instant; nothing else changes |
| Store.Backend.Update | src/pages/Transactions.jsx:90-93 | the table becomes `UpdateRow` of the old one; settings and the id counter stay |
| Store.Backend.Delete | src/pages/Transactions.jsx:117 | the table becomes `DeleteRow` of the old one |
| Store.Backend.DeleteWhereIdNot | src/pages/Settings.jsx:63-66 | the table becomes `DeleteIdsOtherThan` of the old one |
| Store.Backend.Upsert | src/pages/Settings.jsx:38-44 | the settings row of the payload's user is inserted or replaced; the transactions stay |
| Store.Backend.SelectSettings | src/pages/Settings.jsx:19-23 | `.single()` answers with the user's row exactly when one exists |
| Dashboard.OfType | src/pages/Dashboard.jsx:26-27 | the filter keeps exactly the rows of the given type |
| Dashboard.OfTypeConcat | src/pages/Dashboard.jsx:26-32 | filtering by type distributes over concatenation |
| Dashboard.SumConcat | src/pages/Dashboard.jsx:28 | the sum of amounts distributes over concatenation |
| Dashboard.TotalOfTypeSplit | src/pages/Dashboard.jsx:26-32 | wherever a row stands, it adds its amount to the total of its own type and nothing to any other total |
| Dashboard.OtherTypesCountInNeither | src/pages/Dashboard.jsx:26-32 | a row whose type is neither income nor expense changes neither total |
| Dashboard.Sum | src/pages/Dashboard.jsx:28 | the sum of amounts is never negative when no amount is |
| Dashboard.TotalIncome | src/pages/Dashboard.jsx:26-28 | the income total is 0 without income rows, and never negative when no income amount is |
| Dashboard.TotalExpense | src/pages/Dashboard.jsx:30-32 | the expense total is 0 without expense rows, and never negative when no expense amount is |
| Dashboard.CashFlow | src/pages/Dashboard.jsx:34 | the cash flow is the sum of the rows' signed amounts: plus each income, minus each expense, nothing for other types |
| Dashboard.CashFlowIsNetSum | src/pages/Dashboard.jsx:26-34 | income total minus expense total equals the signed sum, row by row |
| Dashboard.HalfUp | src/pages/Dashboard.jsx:42 | the result is the nearest integer to a/den, a tie going up |
| Dashboard.RoundTenths | src/pages/Dashboard.jsx:42 | the rounded value has the sign of the exact one, and its magnitude is the exact magnitude rounded half up |
| Dashboard.RoundTenthsNearest | src/pages/Dashboard.jsx:42 | `toFixed(1)` picks the nearest tenth, and on a tie the one farther from zero |
| Dashboard.SavingRate | src/pages/Dashboard.jsx:37-40 | with positive income, the rate is not negative exactly when expenses do not exceed income; with no negative expense it is at most 100 % |
| Dashboard.SavingRateFixed | src/pages/Dashboard.jsx:42 | the rounded rate is within half a tenth of the exact rate, not negative when the cash flow is not, and at most 100.0 when no expense is negative |
| Dashboard.TextBand | src/pages/Dashboard.jsx:44-49 | emerald from 30.0 %, yellow from 10.0 % below 30.0 %, red below 10.0 %, on the rounded rate |
| Dashboard.BarBand | src/pages/Dashboard.jsx:72-78 | red without positive income; otherwise emerald exactly when the cash flow is at least 3/10 of the income, red exactly when it is below 1/10 of it |
| Dashboard.SavingRateWithoutIncome | src/pages/Dashboard.jsx:37-40 | without positive income the saving rate and its rounded value are 0, whatever the expenses |
| Dashboard.TextBandMonotone | src/pages/Dashboard.jsx:44-49 | a higher rounded rate never falls in a lower colour band |
| Dashboard.RoundReaches | src/pages/Dashboard.jsx:42-49 | the rounded rate reaches a positive threshold exactly when the exact rate is no more than half a tenth below it |
| Dashboard.BarNeverAboveText | src/pages/Dashboard.jsx:42-78 | the bar's band, taken from the unrounded rate, never ranks above the text's band |
| Dashboard.BandsDifferOnlyBelowThreshold | src/pages/Dashboard.jsx:42-78 | the two bands differ only when the exact rate is within half a tenth below 30 or below 10 |
| Dashboard.NearThresholdBandsDiffer | src/pages/Dashboard.jsx:42-78 | income 2500 and expense 1751 give 29.96 %: 30.0 in emerald text over a yellow bar |
| Dashboard.IncomeThousandExpenseSevenHundred | src/pages/Dashboard.jsx:26-49 | income 1000 and expense 700 give cash flow 300 and 30.0 %, emerald, bar at 30 % |
| Dashboard.SingleSalary | src/pages/Dashboard.jsx:37-79 | a single income of 5000000 gives 100.0 % and a full bar |
| Dashboard.BarWidth | src/pages/Dashboard.jsx:79 | the width is the rounded rate capped at 100 %: never above it, never above the rate, one of the two |
| Dashboard.Latest | src/pages/Dashboard.jsx:21 | the latest list is a prefix of the list, of length min(5, n) |
| Dashboard.LatestAreNewest | src/pages/Dashboard.jsx:14-21 | on an answer to the newest-first query, each latest row is at least as new as every row after the first five |
| Dashboard.AnswerListsWholeTable | src/pages/Dashboard.jsx:14-34 | the dashboard lists every row of the table; on an empty table all totals and the rate are 0 |
| Dashboard.DashboardView.constructor | src/pages/Dashboard.jsx:6-7 | both lists start empty |
| Dashboard.DashboardView.Fetch | src/pages/Dashboard.jsx:13-23 | on success the list answers the newest-first query over the table and the latest list is its first five; on error both lists are kept |
| Transactions.TypeClauses | src/pages/Transactions.jsx:46 | "all" constrains nothing; any other value adds one clause, and a row passes exactly when its type equals the value |
| Transactions.MonthClauses | src/pages/Transactions.jsx:48-56 | no month constrains nothing; a chosen month lets a row pass exactly when it was created in that month's window (the UTC window; see "Left out") |
| Transactions.OrderClauses | src/pages/Transactions.jsx:58-68 | at most one order clause, and none for a value outside the four sort options |
| Transactions.QuerySpec | src/pages/Transactions.jsx:42-68 | a row is selected exactly when it has the chosen type ("all" for any) and, when a month is chosen, lies in that month's window |
| Transactions.MonthWindowEdges | src/pages/Transactions.jsx:48-56 | a row at the first instant of the month is selected; a row at the first instant of the next month is not (UTC instants; see "Left out") |
| Transactions.SortMeaning | src/pages/Transactions.jsx:58-68 | newest, oldest, highest and lowest order by created_at or amount in the stated direction; another value leaves all rows tied |
| Transactions.BuildQuery | src/pages/Transactions.jsx:42-68 | the query built by successive reassignment is the query the filters stand for |
| Transactions.DistinctAmountsNoTies | src/pages/Transactions.jsx:64-65 | rows with pairwise distinct amounts never tie on the amount |
| Transactions.AmountDescReversesAsc | src/pages/Transactions.jsx:64-68 | when the listed rows have pairwise distinct amounts, "Highest Amount" lists exactly the rows of "Lowest Amount" in reverse, whatever the rows the filters leave out |
| Transactions.Truthy | src/pages/Transactions.jsx:89 | `if (editingId)`: an unset id is falsy, and every positive row id is truthy |
| Transactions.SaveWrite | src/pages/Transactions.jsx:89-99 | the save's write never removes a row and adds at most the fresh id; editing keeps the set of ids; a failed call or NaN amount leaves the table as it was |
| Transactions.SaveEditChangesOnlyThatRow | src/pages/Transactions.jsx:89-93 | saving an edit changes type, category and amount of the edited row only; its id, its created_at and all other rows stay |
| Transactions.SaveAddsOneRow | src/pages/Transactions.jsx:96-99 | saving a new row adds exactly one row with the form's values under a fresh id and keeps all others |
| Transactions.ZeroAmounts | src/pages/Transactions.jsx:82-98 | a prefilled 0 fails the check, while the typed text "0" passes and is stored as 0 |
| Transactions.TransactionsView.constructor | src/pages/Transactions.jsx:6-16 | the initial state: empty list, type "income", empty form, modals closed, no filters, sort "date_desc" |
| Transactions.TransactionsView.Fetch | src/pages/Transactions.jsx:41-72 | the answer replaces the whole list; a failed call leaves it empty |
| Transactions.TransactionsView.Write | src/pages/Transactions.jsx:89-102 | the table becomes the save's write: update when editing, insert otherwise, unchanged on failure or NaN |
| Transactions.TransactionsView.Save | src/pages/Transactions.jsx:81-111 | a missing category or falsy amount changes nothing; otherwise the row is written, the list refetched, and the form reset to "income", "", "", no edit target, modal closed, not loading |
| Transactions.TransactionsView.Edit | src/pages/Transactions.jsx:123-129 | the row's id, type, category and amount go into the form, and the modal opens |
| Transactions.TransactionsView.Add | src/pages/Transactions.jsx:140-144 | the edit target is cleared and the modal opens; the form fields are not cleared |
| Transactions.TransactionsView.CancelModal | src/pages/Transactions.jsx:326 | only the modal closes |
| Transactions.TransactionsView.AskDelete | src/pages/Transactions.jsx:233 | the row's id becomes the pending deletion; nothing is deleted yet |
| Transactions.TransactionsView.CancelDelete | src/pages/Transactions.jsx:354 | the pending deletion is dropped and the store is untouched |
| Transactions.TransactionsView.ConfirmDelete | src/pages/Transactions.jsx:116-121 | only the row with the pending id is removed; the pending id is cleared and the list refetched; settings and the id counter stay |
| Transactions.TransactionsView.SetKind | src/pages/Transactions.jsx:302 | the type selector sets the form's type |
| Transactions.TransactionsView.SetCategory | src/pages/Transactions.jsx:311 | the category input sets the form's category |
| Transactions.TransactionsView.SetAmount | src/pages/Transactions.jsx:319 | the amount input holds the typed text |
| Transactions.TransactionsView.SetFilterMonth | src/pages/Transactions.jsx:74-76 | changing the month refetches under the new query; setting the same month changes nothing |
| Transactions.TransactionsView.SetFilterType | src/pages/Transactions.jsx:165 | changing the type filter refetches under the new query, as the effect of lines 74-76 does; the same value changes nothing |
| Transactions.TransactionsView.SetSortBy | src/pages/Transactions.jsx:175 | changing the sort order refetches under the new query, as the effect of lines 74-76 does; the same value changes nothing |
| Settings.LoadedBudget | src/pages/Settings.jsx:26 | a null or 0 budget shows an empty input; any other budget shows its own number |
| Settings.LoadedCurrency | src/pages/Settings.jsx:27 | an empty currency shows "IDR"; any other is shown as stored |
| Settings.SavePayload | src/pages/Settings.jsx:40-44 | the payload carries the user, `Number(budget)` and the currency; an empty budget is 0 |
| Settings.BudgetReload | src/pages/Settings.jsx:26-42 | loading a budget and saving it back stores the same number; null comes back as 0 |
| Settings.EmptyBudgetRoundTrip | src/pages/Settings.jsx:26-42 | saving an empty budget stores 0, and loading it shows an empty input again |
| Settings.TypedBudgetRoundTrip | src/pages/Settings.jsx:26-42 | a nonzero typed budget is stored as its number and loads back as it |
| Settings.CurrencyRoundTrip | src/pages/Settings.jsx:27-43 | a nonempty currency survives save and load |
| Settings.SettingsView.constructor | src/pages/Settings.jsx:6-8 | the form starts with an empty budget, "IDR" and no loading |
| Settings.SettingsView.Load | src/pages/Settings.jsx:14-29 | with the user's row, the form shows its values with the defaults; without one, the form keeps its values |
| Settings.SettingsView.SetBudget | src/pages/Settings.jsx:92 | the budget input holds the typed text |
| Settings.SettingsView.SetCurrency | src/pages/Settings.jsx:106 | the currency selector sets the form's currency |
| Settings.SettingsView.BeginSave | src/pages/Settings.jsx:32-44 | the loading flag goes up and the payload is built from the form |
| Settings.SettingsView.FinishSave | src/pages/Settings.jsx:38-53 | the upsert takes effect on success; the loading flag comes down either way; transactions and the id counter stay |
| Settings.SettingsView.SaveSettings | src/pages/Settings.jsx:31-54 | the user's settings row becomes the payload on success, is kept on error, and loading ends false; transactions and the id counter stay |
| Settings.SettingsView.ClearTransactions | src/pages/Settings.jsx:56-74 | nothing is deleted unless confirmed; a confirmed, successful delete leaves no transaction; settings and the id counter stay |
| Sidebar.Toggle | src/layout/Sidebar.jsx:15-17 | the result is "dark" or "light", and it is "dark" exactly when the input is not "dark" |
| Sidebar.ToggleTwice | src/layout/Sidebar.jsx:15-17 | toggling twice restores "dark" and "light"; any other value ends up "light" |
| Sidebar.Menu | src/layout/Sidebar.jsx:9-13 | three links, to three different paths |
| Sidebar.IsActive | src/layout/Sidebar.jsx:68 | an exact match: a link is never active on a longer path below it or a shorter one above it |
| Sidebar.AtMostOneActive | src/layout/Sidebar.jsx:9-68 | at most one link is active: exactly the one whose path equals the pathname, none elsewhere |
| Sidebar.Drawer.constructor | src/layout/Sidebar.jsx:6 | the drawer starts closed |
| Sidebar.Drawer.Open | src/layout/Sidebar.jsx:23 | the hamburger button opens it |
| Sidebar.Drawer.Close | src/layout/Sidebar.jsx:41 | the overlay, like a menu link, closes it |
| Layout.InitialTheme | src/layout/Layout.jsx:9-11 | the stored theme when present and nonempty, otherwise "dark"; never empty |
| Layout.IsDark | src/layout/Layout.jsx:15 | dark mode is on exactly when the theme switch would turn the theme to "light" |
| Layout.ThemeSurvivesReload | src/layout/Layout.jsx:9-19 | a persisted theme is the one read back after a reload |
| Layout.ToggleFlipsDark | src/layout/Layout.jsx:15 | the switch flips `isDark`, and its value survives a reload |
| Layout.Shell.constructor | src/layout/Layout.jsx:9-19 | the theme comes from storage with the fallback and is written back; no modal; signed in |
| Layout.Shell.ToggleTheme | src/layout/Layout.jsx:17-19 | the theme flips, and storage holds the new theme |
| Layout.Shell.OpenLogoutModal | src/layout/Layout.jsx:49 | the Logout button only opens the confirmation; the session stays |
| Layout.Shell.CancelLogout | src/layout/Layout.jsx:72 | the modal closes and the session stays |
| Layout.Shell.Logout | src/layout/Layout.jsx:21-31 | on success the session ends and the location becomes "/"; on error neither changes |
| Layout.Shell.FollowLink | src/layout/Sidebar.jsx:71-74 | a menu link closes the drawer and navigates to its path, which is then the only active link |

## Left out

- The backend client: the query builder library, authentication, row-level
  security and the wire format. The store is an in-memory map, and each call's
  success is a boolean input.
- `supabase.auth.getUser()` always returns the signed-in user, who is an
  input. A missing user throws in the source and is not modelled.
- JavaScript `Date` and the browser's time zone. A chosen month is a (year,
  month) pair, and its window runs from 00:00 UTC on the 1st to 00:00 UTC on
  the 1st of the next month, in the Gregorian calendar. The source parses
  "YYYY-MM" as 00:00 UTC on the 1st, but `getMonth` and `setMonth` work in the
  browser's local time, and the bounds are sent with `toISOString()`
  (`src/pages/Transactions.jsx:48-56`). The model's window is the source's
  window only for a client at UTC or east of it, apart from a daylight-saving
  change inside the month, which moves the end by that hour. West of UTC the
  source's end bound is off by up to three days. In UTC-5, for example:
  - 2024-03 ends at Mar 30 00:00Z, two days short (three in a non-leap year);
  - 2024-04 ends at May 2 00:00Z, a day long, and so do June, September and
    November;
  - 2024-05 ends at May 31 00:00Z and loses the 31st, and so do July, October
    and December;
  - 2024-02 ends at Mar 3 00:00Z, two days long (three in a non-leap year),
    the month furthest off;
  - January and August come out exact.

  Parsing the "YYYY-MM" input text is not modelled either.
- Row ids are assumed positive. They come from the table's identity column,
  whose schema is not part of this model, and `Store.Backend.Valid` encodes
  the assumption as `id >= 1`. `Store.DeleteAllButZeroEmpties` and
  `Settings.SettingsView.ClearTransactions` rely on it to conclude that
  `.neq("id", 0)` deletes every row.
- IEEE-754 arithmetic. Amounts are integers. The saving rate is an exact
  rational, and its `toFixed(1)` value is an integer number of tenths, so the
  binary rounding of the float is not captured.
- `Number()` on amount and budget text only reads optional-minus-digits
  integers. Any other text is NaN.
  - An insert or update whose amount is NaN is modelled as a write that
    changes nothing, because the table's schema is not part of this model.
  - A budget of NaN is stored as null, like `JSON.stringify(NaN)`.
- A null currency in a settings row is represented by the empty string.
- Transactions.TransactionsView.Save: the intermediate `loading = true` state
  during the awaits is set and cleared inside one method, so only its final
  value is stated. Settings splits its save into `BeginSave` and `FinishSave`
  so that the flag is visible there.
- Concurrency: overlapping fetches triggered by quick filter changes, and the
  stale answer that can overwrite the list. Each fetch is atomic.
- Rendering and notifications: JSX, CSS classes other than the colour bands,
  locale formatting, toasts, `TypeBadge`, and the animated counters of
  `src/components/AnimatedCounter.jsx`.
- `src/pages/Login.jsx` and `src/App.jsx` are not part of this model, apart
  from the fact that "/" lies outside the shell.
- The mount effects of the pages (`src/pages/Dashboard.jsx:9-11`,
  `src/pages/Transactions.jsx:74-76`, `src/pages/Settings.jsx:10-12`) are not
  part of the constructors. The fetch or load a page runs on mount is the
  caller's first `Fetch` or `Load` after the constructor.
- `localStorage` is the `storedTheme` field, and `window.confirm` is the
  `confirmed` input.
