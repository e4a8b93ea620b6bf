# Balance tracker: the ledger/balance state machine

The balance tracker is a single web page. The user records amounts earned or
spent. The page keeps a running balance, draws it as a line chart and saves its
state in the browser's localStorage. Apart from the UI, the logic in `app.js` is a
small state machine over three module-level arrays:

- `balances`: the running totals, starting at `[0]`;
- `labels`: the chart's x-axis, `1..n`;
- `ledger`: one `{amount, type, date}` record per transaction.

Two localStorage keys, `"balances"` and `"ledger"`, hold stored copies.

The model has three modules:

- `TrackerState` (state.dfy): the data as values and one step function per
  handler: the load rule, `addTransaction`, the confirm guard, undo and reset.
  Each step function's contract says what the step does to both memory and
  storage. Each one also keeps `Consistent`: there is at least one balance, the
  labels are `1..n`, and reloading from storage gives back exactly what is in
  memory.
- `TrackerProperties` (properties.dfy): lemmas over single steps and over whole
  runs of events. They cover running sums, undo as the inverse of add, the
  balance/ledger pairing and the sign of every entry.
- `TrackerPage` (page.dfy): the page as app.js holds it. A `Tracker` class has
  the three arrays as fields and a `Storage` object for localStorage. Its
  methods change the fields in place, and each method's `ensures` ties the new
  state to the matching step function.

Amounts are exact decimals (`real`), not IEEE doubles. A date is an opaque
string passed in by the caller. Reset is modelled with its confirmation already
given.

## Model

| member | source | states |
|---|---|---|
| TrackerState.Labels | app.js:3 | the label sequence for n balances has length n and its i-th element is i + 1 (the `map((_, i) => i + 1)` of the load rule) |
| TrackerState.LoadFrom | app.js:2-4 | an absent "balances" key loads as `[0]` and a present one as stored; an absent "ledger" key loads as `[]`; the labels are numbered 1..n from the loaded balances |
| TrackerState.Current | app.js:10-12 | `currentBalance()`, the last running total; while balances and ledger are paired it is the first balance plus the total of the ledger amounts |
| TrackerState.PairedBalanceIsTotal | app.js:10-12 | where balances and ledger are paired, the current balance is the first balance plus the total of the ledger amounts |
| TrackerState.AddStep | app.js:63-81 | add appends exactly one balance, equal to the previous current balance plus the amount, and leaves the earlier balances as they were; it appends exactly one ledger entry `{amount, kind, date}`; afterwards storage holds both in-memory sequences; the invariant is kept |
| TrackerState.ConfirmStep | app.js:136-140 | input that `Accepts` rejects (not greater than 0) changes nothing; accepted input appends one entry of the given kind and date whose amount is +num for an earning and -num for a spending, so its sign matches its kind; it appends one balance, the previous one plus that amount, and leaves the earlier balances as they were; the invariant is kept |
| TrackerState.UndoStep | app.js:188-209 | with one balance nothing changes in memory or storage; otherwise exactly the last balance and one label are removed and the balances are saved; a ledger entry is removed and saved only if the ledger is not empty, and otherwise the stored ledger stays as it was; the invariant is kept |
| TrackerState.ResetStep | app.js:174-185 | reset leaves one zero balance and label 1 and removes the "balances" key, so a reload gives `[0]`; the ledger and its stored copy are left unchanged; the invariant is kept |
| TrackerState.ResetAllStep | app.js:174-185 | the corrected reset deletes all data: both keys removed, ledger empty, balance 0, and balances and ledger paired |
| TrackerState.Step | app.js:2-209 | one event dispatched to its handler: confirm (app.js:136-140), reset (app.js:174-185), undo (app.js:188-209), or a reload through the load rule (app.js:2-4); every handler keeps the invariant, and a reload of a consistent page changes nothing, because storage agrees with memory |
| TrackerProperties.Fresh | app.js:2-4 | a first visit with empty storage gives balances `[0]`, labels `[1]` and an empty ledger |
| TrackerProperties.Run | app.js:164-209 | any sequence of loads, confirms, undos and resets keeps the invariant: labels `1..n` and storage agreeing with memory |
| TrackerProperties.AddAll | app.js:63-81 | calling `addTransaction` repeatedly keeps the invariant |
| TrackerProperties.AddAllAppends | app.js:63-79 | after n adds the ledger has gained exactly those n entries, in order, and the balance has grown by their total |
| TrackerProperties.BalanceIsSumOfTransactions | app.js:63-65 | starting from `[0]`, after n transactions `currentBalance()` is the sum of their amounts and the ledger holds them in order |
| TrackerProperties.UndoAfterAdd | app.js:188-203 | add followed by undo restores balances, labels and ledger exactly; storage then holds both keys and reloads to the same state as before the add |
| TrackerProperties.UndoAfterConfirm | app.js:136-140 | an accepted confirmation followed by undo restores memory exactly |
| TrackerProperties.AddKeepsPaired | app.js:63-79 | add keeps `|balances| == |ledger| + 1`, with each balance equal to the previous one plus that entry's amount |
| TrackerProperties.UndoKeepsPaired | app.js:188-203 | undo keeps the same pairing |
| TrackerProperties.StepKeepsPaired | app.js:164-209 | every event except reset keeps the pairing |
| TrackerProperties.RunWithoutResetKeepsPaired | app.js:164-209 | a run of events that never presses reset keeps the pairing |
| TrackerProperties.BalanceIsLedgerTotalWithoutReset | app.js:10-12 | from a first visit, as long as reset is never pressed, balances and ledger stay paired and the balance equals the ledger's total |
| TrackerProperties.StepKeepsFirstBalance | app.js:136-209 | no handler changes a first balance of 0: confirm and undo touch only the end of `balances`, and reset sets it to `[0]` |
| TrackerProperties.RunKeepsFirstBalance | app.js:2 | a first balance of 0 stays 0 through any run of events |
| TrackerProperties.ResetBreaksPairing | app.js:174-185 | one earning and then a reset yields one balance beside one ledger entry, in memory and after a reload: reset does not keep the pairing |
| TrackerProperties.ResetAllThenRunKeepsPaired | app.js:174-185 | after one corrected reset, a later run in which reset is never pressed keeps the pairing, and the balance equals the ledger's total |
| TrackerProperties.FixedStep | app.js:174-185 | the dispatch with the corrected reset: a reset empties the ledger and removes both keys, a reload changes nothing, and the invariant is kept |
| TrackerProperties.FixedRun | app.js:164-209 | any run of events with the corrected reset keeps the invariant |
| TrackerProperties.FixedRunKeepsPaired | app.js:174-185 | with the corrected reset, every event keeps the pairing, resets included |
| TrackerProperties.FixedRunKeepsFirstBalance | app.js:2 | with the corrected reset, a first balance of 0 stays 0 through any run of events |
| TrackerProperties.FixedBalanceIsLedgerTotal | app.js:10-12 | from a first visit, with the corrected reset, every run of events leaves balances and ledger paired and the balance equal to the ledger's total |
| TrackerProperties.EarnSpendUndoReset | app.js:136-209 | earn 50, spend 20, undo, reset: the balance goes 50, 30, 50, 0; after undo the ledger holds one entry, and after reset it still holds that entry |
| TrackerProperties.UndoAfterResetIsNoop | app.js:189 | undo on a fresh or just-reset page changes nothing in memory or storage |
| TrackerProperties.StepKeepsWellSigned | app.js:137-139 | every handler keeps each ledger entry's sign in line with its kind |
| TrackerProperties.RunKeepsWellSigned | app.js:137-139 | any run of events keeps every entry's sign in line with its kind |
| TrackerProperties.RunNeverStoresEmptyBalances | app.js:2 | the page never stores an empty "balances" array, so the load rule always yields at least one balance |
| TrackerPage.FirstVisit | app.js:2-4 | a page opened on empty storage is a new tracker and a new storage, holding exactly the first-visit state (`[0]`, `[1]`, empty ledger) |
| TrackerPage.Tracker.Load | app.js:2-4 | the page load sets the arrays to the load rule applied to storage and establishes the invariant |
| TrackerPage.Tracker.CurrentBalance | app.js:10-12 | the current balance; while balances and ledger are paired it is the first balance plus the ledger's total |
| TrackerPage.Tracker.SaveData | app.js:58-60 | writes the balances under their key and leaves the ledger key alone |
| TrackerPage.Tracker.AddTransaction | app.js:63-81 | updates the arrays and storage in place exactly as `AddStep` describes, keeping the invariant |
| TrackerPage.Tracker.Confirm | app.js:136-140 | the confirm handler in place, exactly as `ConfirmStep` describes |
| TrackerPage.Tracker.Undo | app.js:188-209 | the undo handler in place, exactly as `UndoStep` describes; reports whether anything was undone |
| TrackerPage.Tracker.Reset | app.js:174-185 | the reset handler in place, exactly as `ResetStep` describes |

## Left out

- DOM construction and the modal widget (app.js:90-162): overlay, buttons, focus timer and key handling are UI only. Only the confirm guard is modelled.
- Chart.js setup and the colour callbacks (app.js:18, 21-55), and the chart refreshes inside the handlers: these belong to an external library and to display styling.
- Text formatting of the balance and of the last-entry message (`toFixed`, app.js:15-19, 83-86, 182, 205): string output over floats.
- Parsing the input with `parseFloat`/`isNaN` (app.js:137): this is floating-point behaviour. The guard is modelled on an already-parsed number, and NaN is not modelled.
- JSON serialisation and the localStorage API: storage is two optional stored sequences. A stored value that is not a JSON array of numbers (for "balances") or of entries (for "ledger") is not modelled. This covers text on which `JSON.parse` throws, a value such as `5` on which the `map` at app.js:3 throws, and a falsy value such as `0`, `null` or `""`, which falls back to the default.
- `new Date().toISOString()` (app.js:78): the date is a parameter.
- The `confirm` and `alert` dialogs and the link to data.html (app.js:175, 207, 211-214): these are I/O. Reset is modelled as confirmed, and `Undo` returns false exactly when the "Nothing to undo" alert would be shown.
- TrackerPage.Tracker.Load: requires that the stored "balances" value is not an empty array. For such a value the page's `[] || [0]` yields an empty `balances`, and `currentBalance()` is then undefined. The page itself never stores one (`RunNeverStoresEmptyBalances`).
- One writer to localStorage: the model assumes the page in one tab is the only writer of the two keys. localStorage is shared by every tab of the site, and a second tab that overwrites the keys (app.js:59, 81) can lose the first tab's transactions. The model cannot reach that state.
- Writes that succeed: the model assumes every write to localStorage succeeds. `setItem` throws when storage is full or disabled (app.js:59, 81, 202). In `addTransaction` a throw in `saveData()` comes after the balance and label pushes (app.js:65-66) but before the ledger push (app.js:75). Memory is then left with `|balances| == |ledger| + 2`, and storage is left behind. In undo, a throw at app.js:198 skips the ledger pop at app.js:201. Such a partly updated, unpaired state is not modelled.
- `Consistent`, every step function's contract, every `Tracker` method's `Valid()`, the pairing lemmas (`AddKeepsPaired`, `UndoKeepsPaired` and those built on them) and all the results saying that storage agrees with memory hold only under the two assumptions above: one writer, and writes that succeed.
- Amount widths: JavaScript numbers are doubles, and the model's decimals neither round nor overflow. The guard at app.js:138 accepts `1e308`, and earning it twice gives `Infinity`. `JSON.stringify` (app.js:59) stores `Infinity` as `null`, so after a reload the current balance is `null` and `toFixed` at app.js:17 throws. That overflow and its `null` in storage are not modelled.

## Findings

| source | as written | input that shows it | evidently intended | confidence | as-written member | corrected member |
|---|---|---|---|---|---|---|
| app.js:174-185 | reset empties `balances` and `labels` and removes only the "balances" key; the in-memory `ledger` and the "ledger" key are kept | earn 5, then reset: balances `[0]` beside a one-entry ledger, in memory and after a reload | reset deletes all data, as its confirmation says ("delete all data"): the ledger and its key are cleared too, so each balance after the first is paired with one ledger entry | medium, not executed | TrackerProperties.ResetBreaksPairing | TrackerProperties.FixedBalanceIsLedgerTotal |

The handlers in TrackerPage keep the as-written reset, because that is what the
page does. The corrected reset is `TrackerState.ResetAllStep`, and its
contract proves the pairing. `TrackerProperties.FixedRun` runs events with that
reset in place of the as-written one. `FixedBalanceIsLedgerTotal` shows that,
from a first visit, every such run keeps the pairing, resets included, and that
the balance is then the ledger's total.
