# Personal finance ledger — a Dafny model

This project models the ledger logic of a single-user personal finance tracker.
The tracker is a Streamlit page (`main.py`). It keeps a list of income and expense
transactions, a map of per-category budgets and a list of savings goals, and it
shows totals, balance, savings rate, budget progress and goal progress. All of
that logic is inline in the page code. Here it is pulled out into:

- `wrappers.dfy` — `Option` and `Result`.
- `ledger.dfy` (module `Ledger`) — transaction records and id allocation
  (`NextId`), delete and bulk delete (`RemoveIds`), and the patch merge that
  edits the first record with a given id (`UpdateFirst`).
- `metrics.dfy` (module `Metrics`) — totals by type, balance, savings rate,
  per-category spending, budget bars with the over-budget and near-limit flags,
  and goal progress.
- `filter.dfy` (module `Filter`) — the transaction filter: types, categories,
  an inclusive date range, and a case-insensitive search.
- `store.dfy` (module `Store`) — the stored document and its key defaults.
- `app.dfy` (module `App`) — class `SessionState`. It holds the session's
  collections and the two UI flags, `editingId` and `deleteConfirmId`. Every
  button and form is a method that changes these fields in place. `Valid()`
  means at most one flag is set, so the session is in exactly one of the modes
  `Viewing`, `Editing(id)` or `ConfirmingDelete(id)`.
- `danger_zone.dfy` (module `DangerZone`) — the "Clear All Data" control,
  modelled over successive runs of the page script.

Modelling choices:

- Amounts are `real`, not floats.
- Dates are integer day numbers, where a larger number is a later day.
- A record's `type` is the datatype `Kind`, either `Income` or `Expense`.
- User input is passed in as parameters: form values, the date chosen, and
  "today" for a new goal's `created` date.

Ids are not monotone across deletes: `get_next_id` hands out `max(id) + 1`,
so after the largest id is deleted, the next record gets that same id again
(`Ledger.NextIdReusedAfterDelete`, and the client method
`App.EmptyStartScenario`). Ids still stay unique (`Ledger.AppendFreshKeepsUnique`,
and the `UniqueIds` clauses of the `SessionState` methods).

## Model

| member | source | states |
|---|---|---|
| `Ledger.NextId` | main.py:148-152 | 1 for an empty ledger; otherwise strictly above every existing id and exactly one more than some existing id (the maximum); never an existing id |
| `Ledger.MaxId` | main.py:152 | the result is an id of the ledger and no id exceeds it |
| `Ledger.AppendFreshKeepsUnique` | main.py:346-355 | appending a record carrying `NextId` keeps ids unique and adds exactly that id |
| `Ledger.NextIdReusedAfterDelete` | main.py:148-152 | with ids 1 and 2, the next id is 3; after deleting 2 the next id is 2 again (ids are not monotone over deletes) |
| `Ledger.RemoveIds` | main.py:154-158 | a record is kept iff it was in the ledger and its id is not selected; the kept ids are the old ids minus the selection; the kept records keep their order (a subsequence) |
| `Ledger.RemoveIdsKeepsEveryCopy` | main.py:156-158 | a surviving record keeps every copy it had (duplicates included); a record with a selected id keeps none |
| `Ledger.RemoveAbsentIsNoOp` | main.py:156-158 | deleting ids that no record carries leaves the list unchanged |
| `Ledger.RemoveKeepsUnique` | main.py:533-536 | deletion keeps ids unique |
| `Ledger.DeleteOneShrinksByOne` | main.py:156-158 | with unique ids, deleting a present id removes exactly one record |
| `Ledger.BulkDeleteExample` | main.py:533-536 | selecting {2, 4} from records with ids 1, 2, 3, 4 leaves exactly the records 1 and 3, in order |
| `Ledger.UpdateFirst` | main.py:166-170 | the update keeps the length and every position's id, so the set of ids is unchanged |
| `Ledger.UpdateFirstAt` | main.py:166-170 | when `k` is the first position with the id, the result is the old list with only position `k` replaced by the patched record |
| `Ledger.UpdateAbsentIsNoOp` | main.py:166-170 | when no record has the id, the update changes nothing |
| `Ledger.UpdateKeepsUnique` | main.py:433-439 | an update keeps ids unique, because a patch has no id field |
| `Ledger.EditPatch` | main.py:433-439 | the patch the edit form submits, carrying all five editable fields; no contract of its own; see `EditReplacesAllButId` |
| `Ledger.EditReplacesAllButId` | main.py:433-439 | saving the edit form replaces type, category, amount, date and description and keeps the id |
| `Ledger.Apply` | main.py:168 | `dict.update`: each field the patch carries takes the patch's value, each field it omits keeps the record's value, and the id never changes |
| `Ledger.ApplyIdempotent` | main.py:168 | merging the same patch twice equals merging it once, and never changes the id |
| `Metrics.TotalOf` | main.py:189-190 | the total of one type; no contract of its own; see `TotalCountsOnlyItsKind`, `TotalOfAppend`, `TotalsPartition`, `TotalNonNegative` |
| `Metrics.Balance` | main.py:191 | total income minus total expense; no contract of its own; see `SingleKindBalance`, `AddMovesOneTotal` |
| `Metrics.TotalCountsOnlyItsKind` | main.py:189-190 | records of the other type add nothing to a total; when every record has the total's type, it is the sum of all amounts |
| `Metrics.SingleKindBalance` | main.py:191 | a ledger of income only has the sum of its amounts as balance, one of expenses only the negated sum |
| `Metrics.TotalOfAppend` | main.py:189-190 | the income and expense totals are additive over a split of the ledger |
| `Metrics.AddMovesOneTotal` | main.py:189-191 | adding a record raises only the total of its own type, by its amount, and moves the balance by +amount (income) or -amount (expense) |
| `Metrics.TotalsPartition` | main.py:189-190 | income total plus expense total equals the sum of all amounts |
| `Metrics.TotalNonNegative` | main.py:189-190 | with positive amounts every total is non-negative |
| `Metrics.RemoveNeverRaisesTotal` | main.py:189-190 | deleting records never raises a total when amounts are positive |
| `Metrics.SavingsRate` | main.py:229 | with income > 0, rate × income = balance × 100; with no income the rate is exactly 0 |
| `Metrics.LedgerSavingsRateAtMost100` | main.py:229 | a ledger with positive amounts has a savings rate of at most 100%, and exactly 0 when income is 0 |
| `Metrics.Spending` | main.py:658-661 | one category's expense total; no contract of its own; see `SpendingCountsOnlyCategoryExpenses`, `SpendingWithinExpense` |
| `Metrics.SpendingCountsOnlyCategoryExpenses` | main.py:658-661 | without an expense of the category the spending is 0; when every record is in the category it equals the total expense |
| `Metrics.SpendingWithinExpense` | main.py:658-661 | a category's spending is non-negative and at most the total expense |
| `Metrics.BudgetStatus` | main.py:663-671 | a bar is shown iff the budget is positive; over-budget iff spent > budget; near-limit iff 0.8·budget < spent ≤ budget (never both flags); progress is in [0, 1] for non-negative spending, equals 1 iff spent ≥ budget, and times budget equals spent when within budget |
| `Metrics.LedgerBudgetBarInRange` | main.py:658-665 | for a positive budget over a ledger with positive amounts, the bar exists and lies in [0, 1] |
| `Metrics.BudgetExample` | main.py:663-671 | a budget of 50 with 45 spent gives progress 0.9, near-limit and not over budget |
| `Metrics.GoalProgress` | main.py:701 | with a positive target, progress × target = current; otherwise progress is 0 |
| `Metrics.GoalBar` | main.py:711 | the displayed bar is at most 1 and non-negative for non-negative savings; it equals 1 iff the target is positive and reached; below the target it equals the progress; with a non-positive target it is 0 |
| `Metrics.IncrementRaisesProgress` | main.py:721-723 | a positive increment raises progress by exactly amount / target |
| `Metrics.GoalExample` | main.py:701 | a goal of 1000 with 0 saved, increased by 250, is at 0.25 |
| `Filter.Select` | main.py:380-389 | a record is listed iff it is in the ledger and passes all criteria; listed records keep ledger order |
| `Filter.SelectKeepsEveryCopy` | main.py:389 | `df[mask]` lists every copy of a passing record and no copy of any other |
| `Filter.Matches` | main.py:380-387 | a record passes iff its type and category are selected, its date is in the window and its description contains the term ignoring case; the `if search_term` guard changes nothing, since the empty term is contained everywhere |
| `Filter.ContainsIgnoringCase` | main.py:387 | a term longer than the description is never found; a description always contains itself |
| `Filter.SelectAllMatching` | main.py:380-389 | when every record passes, the filter returns the ledger unchanged |
| `Filter.DeletedNeverListed` | main.py:380-389 | after deleting an id, no listed record carries it |
| `Filter.SearchIgnoresCaseOfTerm` | main.py:386-387 | the search result does not depend on the case of the term |
| `Filter.SearchIgnoresCaseOfText` | main.py:387 | the search result does not depend on the case of the description |
| `Filter.EmptyTermAlwaysFound` | main.py:386-387 | an empty search term matches every description |
| `Filter.MinDate` | main.py:375 | the earliest date: some record carries it and no record is earlier |
| `Filter.MaxDate` | main.py:375 | the latest date: some record carries it and no record is later |
| `Filter.DefaultCriteria` | main.py:371-377 | every record's type, category and date pass the initial filters; both ends of the initial range are dates some record carries; the initial search is empty |
| `Filter.DefaultFiltersShowAll` | main.py:371-377 | with the default filters (all types and categories present, earliest to latest date, no search) every transaction is listed |
| `Filter.WindowAsWritten` | main.py:383-384 | fails iff fewer than two dates are chosen; otherwise accepts exactly the dates from the first to the second, inclusive |
| `Filter.FilterAsWritten` | main.py:380-389 | the filter as written fails iff fewer than two dates are chosen |
| `Filter.PartialRangeFailsAsWritten` | main.py:375-384 | a one-date selection makes the filter fail with an index error, whatever the ledger |
| `Filter.WindowOf` | main.py:383-384 | the corrected window: two dates give the inclusive range, one date only a lower bound, none no bound |
| `Filter.ViewFilter` | main.py:380-389 | the corrected filter agrees with the code whenever the code succeeds, and lists exactly the records passing the criteria for any selection, each with all its copies |
| `Store.LoadData` | main.py:112-120 | a readable file is returned as it is; without one the document holds an empty list, an empty map and an empty list |
| `Store.StateOf` | main.py:138-140 | a missing key gives an empty collection; a document with all three keys is recovered exactly by saving its state again |
| `Store.ToDocument` | main.py:122-128 | saving writes all three keys |
| `Store.SaveThenLoad` | main.py:112-140 | saving then loading gives back the same transactions, budgets and goals |
| `Store.NoFileStartsEmpty` | main.py:112-120 | with a missing or unreadable file, the session starts with three empty collections |
| `Store.MissingKeysDefaultToEmpty` | main.py:757-759 | on restore, a missing key gives an empty collection and a present key is taken as it is |
| `App.Overwrite` | main.py:645-654 | the budget map after `budgets[category] = new_budget` for each listed category in order; no contract of its own; see `OverwriteDomain`, `OverwriteKeepsOthers`, `OverwriteSetsEach` |
| `App.OverwriteDomain` | main.py:645-654 | after the pass, the budget map's keys are the old keys plus the listed categories, and no others |
| `App.BudgetBars` | main.py:645-671 | one bar per listed category, in order, each the `BudgetStatus` of its entered budget and its spending |
| `App.OverwriteKeepsOthers` | main.py:645-654 | a budget whose category is not listed keeps its old entry, or stays absent |
| `App.OverwriteSetsEach` | main.py:645-654 | each listed category's budget holds the value entered for it |
| `App.SessionState.Valid` | main.py:143-146 | at most one of the two flags is set, as every button at main.py:482-490 keeps by clearing the other flag; no contract of its own; every `SessionState` method requires and ensures it |
| `App.SessionState.Mode` | main.py:143-146 | under `Valid()`, each flag corresponds to exactly one mode: `Editing(id)` iff the editing flag is set to that id, `ConfirmingDelete(id)` iff the confirm flag is, `Viewing` iff neither |
| `App.SessionState.Start` | main.py:136-146 | the session starts from the loaded document with key defaults, in mode `Viewing` |
| `App.SessionState.AddTransaction` | main.py:346-355 | appends exactly one record carrying `NextId` (a fresh id); nothing else changes; unique ids and positive amounts are preserved |
| `App.SessionState.DeleteTransaction` | main.py:154-159 | the list becomes `RemoveIds(old, {id})`; an absent id leaves it unchanged; the delete-confirm flag is cleared; ids stay unique |
| `App.SessionState.UpdateTransaction` | main.py:164-171 | the list becomes `UpdateFirst(old, id, patch)`; the editing flag is cleared; ids stay unique; nothing else changes |
| `App.SessionState.PatchFirst` | main.py:166-170 | the scan-and-break loop leaves exactly `UpdateFirst(old, id, patch)`: the first record with the id patched, or the list unchanged when there is none |
| `App.SessionState.BulkDelete` | main.py:533-536 | the list becomes the old records whose id is not selected, in order; ids stay unique |
| `App.SessionState.DeleteAll` | main.py:551 | the transaction list becomes empty; budgets and goals are unchanged |
| `App.SessionState.ClearAllData` | main.py:771-773 | transactions, budgets and goals all become empty |
| `App.SessionState.Restore` | main.py:756-759 | the state becomes the uploaded document with key defaults; the UI flags are untouched |
| `App.SessionState.ReviewBudgets` | main.py:645-671 | every listed category's budget is overwritten in order with the value entered; the bars are `BudgetBars` of the ledger, the categories and the values entered; the transactions and goals are unchanged |
| `App.SessionState.ReviewBudget` | main.py:647-665 | one category: its budget becomes the value entered, nothing else in the map changes, and its bar is `BudgetStatus` of that value and the category's spending |
| `App.SessionState.AddGoal` | main.py:688-694 | appends one goal with `current = 0` and the given name, target, deadline and creation date |
| `App.SessionState.AddToGoal` | main.py:721-723 | a positive amount is added to that goal's `current` only; a non-positive amount changes nothing |
| `App.SessionState.StartEdit` | main.py:482-485 | mode becomes `Editing(id)` and any pending delete confirmation is dropped; the data is unchanged |
| `App.SessionState.StartDelete` | main.py:487-490 | mode becomes `ConfirmingDelete(id)` and any edit in progress is dropped; the data is unchanged |
| `App.SessionState.CancelEdit` | main.py:441-442 | the editing flag is cleared; from `Editing` the mode returns to `Viewing` |
| `App.SessionState.CancelDelete` | main.py:456-457 | the delete-confirm flag is cleared; from `ConfirmingDelete` the mode returns to `Viewing` |
| `DangerZone.RunAsWritten` | main.py:768-776 | a run clears the data iff its action is the button click and the checkbox was already shown and ticked; the checkbox is drawn iff the action is the click; a ticked value survives only in a run that clears |
| `DangerZone.RunAll` | main.py:768-776 | successive runs of the page, each from the widget state the previous one left; no contract of its own; see `AsWrittenNeverClears`, `ConfirmFlowFailsAsWritten`, `TickThenClickClears`, `CorrectedNeedsConfirmation` |
| `DangerZone.AsWrittenNeverClears` | main.py:768-776 | starting from an unticked checkbox, no sequence of actions ever clears the data |
| `DangerZone.ConfirmFlowFailsAsWritten` | main.py:768-776 | click "Clear All Data", tick the box, click again: nothing is cleared |
| `DangerZone.RunCorrected` | main.py:768-776 | corrected: a run clears iff it is the click and the box is already ticked; the box is always drawn and keeps its value unless toggled |
| `DangerZone.TickThenClickClears` | main.py:768-776 | corrected: ticking the box and then clicking clears the data |
| `DangerZone.CorrectedNeedsConfirmation` | main.py:768-776 | corrected: while the box has never been ticked, nothing is cleared |

## Findings

| source | as written | input that shows it | evidently intended | confidence | as-written member | corrected member |
|---|---|---|---|---|---|---|
| main.py:375-384 | the mask reads `date_range[0]` and `date_range[1]` unconditionally | picking the first day of a new range in the date widget, which then yields a one-date selection, so the indexing fails | a partial range restricts only by the dates it has; a missing bound does not restrict | medium (relies on the date widget returning fewer than two dates mid-selection), not executed | `Filter.PartialRangeFailsAsWritten` | `Filter.ViewFilter` |
| main.py:768-776 | the confirm checkbox is drawn only inside `if st.button("Clear All Data")`, so it is checked in a run where the button is true | click "Clear All Data", tick the box (this starts a new run where the button is false, so the box is not drawn and its value is dropped), click again (the box comes back unticked): the data is never cleared | the box is drawn on every run, and the button clears only when the box is ticked | medium-high (relies on button and widget-state semantics over reruns), not executed | `DangerZone.AsWrittenNeverClears` | `DangerZone.RunCorrected` |

## Left out

- Rendering: page configuration, CSS, sidebar, columns, forms, metrics, messages and `st.rerun`. These are interface calls with no ledger logic.
- Charts and dataframe aggregations: the daily and monthly pivots, the expense pie, the category stats table and the weekday chart. These are library calls, and their weekday and month bucketing needs calendar conversion.
- The "Recent Transactions" top five (main.py:293). It is display only.
- The filtered view's descending sort by date (main.py:365). `Filter.Select` lists records in ledger order.
- CSV export (main.py:496) and `strftime` date formatting. These are foreign library calls; dates are day numbers here.
- Reading and writing the JSON file, and JSON serialisation. These are file I/O. `save_data` after each mutation is not modelled; `Store` models only the key defaults and the round trip at the level of the document.
- Floating-point arithmetic and `:,.2f` formatting. Amounts are reals.
- Widget defaults on the budget page (`budgets.get(category, 0)` as the input's start value). The values entered are a parameter of `App.SessionState.ReviewBudgets`.
- The clock (`datetime.now()`). It is the `today` parameter of `App.SessionState.AddGoal`.
- Type strings other than "Income" and "Expense" in an imported backup, and the edit form's `.index(category)` failure on an unknown category. Imported data is assumed to use the page's own values.
- Filter.ContainsIgnoringCase: the term is matched as a literal substring with ASCII case folding. pandas treats the term as a regular expression with Unicode case folding; regular expressions are not modelled.
- The form-level minimums (amount at least 0.01, target at least 1.0, budget at least 0). They are not preconditions. Where they matter, they are stated as hypotheses (`PositiveAmounts`) or handled by the source's own guards (`target > 0`, `budget > 0`).
