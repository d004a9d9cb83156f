# cc-admin withdrawal console, modelled in Dafny

cc-admin is a browser console for the operators of a betting service on Solana.
It lists the pending withdrawal requests the backend reports, narrowed by a time
window, an origin tag (`win`, `lose`, `withdraw`), a status and a wallet-address
search. It pages the list ten rows at a time and lets the operator check rows. It
then settles the checked batch in bulk:

- an approve pays every request of the batch in one chain transfer from the
  operator's Phantom wallet and posts them to the backend as `successful`;
- a reject posts them as `failed` and pays nothing;
- a review only records a local history entry.

Two further pages list the completed withdrawals and the details of one local
history entry.

This project models that core:

- **Shared modules.**
  - `JsStrings`, `JsArrays` and `Calendar` model the JavaScript built-ins the
    code relies on: ASCII `toLowerCase`, `includes`, the capitalisation idiom,
    `filter`, `find`, `slice`, `new Set(array)` and `getFullYear` read in UTC.
  - `Withdrawals` holds the shared records, resolving a list of ids against the
    store, and the explorer link.
- **`RequestFilter`.** `filterWithdrawals`, evaluated at a time `now` given as a
  parameter.
- **`Settlement`.**
  - `handleBulkAction` is a specification function `BulkActionStep` over a
    snapshot of the console's state. The class `AdminConsole` carries out the
    same steps imperatively: `HandleBulkAction` handles the review branch itself
    and calls `ApproveBatch` and `RejectBatch` for the two settling branches.
    Each method is proved equal to the matching part of the specification.
  - Everything the workflow cannot decide itself is a field of an `Oracle`: the
    chain transfer's outcome, whether the backend accepts the post, the refresh
    response, the history entry's random id and the clock.
  - The workflow's visible effects go into an event log. These are the alerts,
    the processing flag going up and down, the transfer call, the post, the
    refresh fetch and the success toast. The log makes "no transfer happened"
    and "the flag was cleared last" statable.
  - The initial load and the refresh map backend rows into the store.
- **`WithdrawalTable`.** The page slice, and the selection set as a class
  `TableState`. A JavaScript `Set` keeps insertion order, so the selection is a
  sequence without repeats.
- **`PhantomWallet`.** The wallet session as a class `WalletSession` with the
  fields `connected` and `publicKey`. The provider's presence and answers are
  parameters.
- **`TransactionHistory` and `TransactionDetails`.** The search, placeholder,
  icon, lookup, involved-request and label logic of the two pages.

Three points of the code's behaviour that the model keeps as written:

- **No allow-list.** The code checks the connected wallet against no
  allow-list, so the session has no authorization gate.
- **Failed initial load.** A failed load sets the error banner and leaves the
  store as it was. The store is empty at mount, so this only matters if a load
  runs again.
- **Status check.** The status check on approve (`hasInvalidStatus`) is
  computed and never consulted. `StatusNeverConsulted` proves that statuses
  cannot change the workflow's outcome.

## Model

| member | source | states |
|---|---|---|
| JsStrings.ToLowerCaseIdempotent | src/App.tsx:233 | lower-casing twice is lower-casing once |
| JsStrings.ToLowerCaseFixesLower | src/pages/TransactionHistory.tsx:44 | text without capitals is its own lower case, and a lower-cased text has no capitals |
| JsStrings.CapitalizeShape | src/App.tsx:112 | capitalising touches only the first character: same length, same tail, first letter upper-cased, and the same text to a case-insensitive comparison |
| JsStrings.IncludesIffOccurs | src/App.tsx:233 | `includes` holds exactly when the needle occurs at some position of the text |
| JsArrays.Filter | src/App.tsx:203 | the result is no longer than the input, and each element kept is in the input and passes the test |
| JsArrays.FilterCounts | src/App.tsx:203-236 | an element passing the test is kept as often as it occurs, and a failing one never |
| JsArrays.FilterMembership | src/App.tsx:203-236 | an element is in the result exactly when it is in the input and passes the test |
| JsArrays.FilterIsSubsequence | src/App.tsx:203-236 | the result is a subsequence of the input, so the order is kept |
| JsArrays.FilterFilter | src/App.tsx:235 | filtering by one test and then another equals filtering once by their conjunction |
| JsArrays.FilterCongruent | src/pages/TransactionHistory.tsx:56 | two tests that agree on every element of the input give the same result |
| JsArrays.Find | src/pages/TransactionDetails.tsx:16 | a found element is in the list and passes the test |
| JsArrays.FindFirst | src/pages/TransactionDetails.tsx:16 | nothing is found exactly when no element passes; a found element is the first that passes |
| JsArrays.SliceWindow | src/components/WithdrawalTable.tsx:38 | for non-negative bounds, `slice` is the window from `begin` to `end` cut to the list, never longer than `end - begin` |
| JsArrays.Dedup | src/components/WithdrawalTable.tsx:42 | `new Set(array)` has no repeats and holds exactly the array's elements |
| JsArrays.DedupKeepsOrder | src/components/WithdrawalTable.tsx:42 | the elements of `new Set(array)` come in the array's order |
| JsArrays.DistinctCard | src/components/WithdrawalTable.tsx:122 | a list without repeats has as many elements as its set |
| JsArrays.SameSizeSubset | src/components/WithdrawalTable.tsx:122 | for repeat-free lists with one inside the other, equal sizes holds exactly when they hold the same elements |
| Calendar.YearOfDayInYear | src/App.tsx:219 | every day falls between 1 January of the year computed for it and 1 January of the next, with 1 January counted year by year from 1970 by the Gregorian leap rule |
| Calendar.DaysBeforeYearIncreasing | src/App.tsx:219 | 1 January of a later year comes at least 365 days per year later |
| Calendar.YearOfDayCharacterised | src/App.tsx:219 | a day is in year `y` exactly when it lies between 1 January of `y` and 1 January of `y + 1` |
| Calendar.YearOfCharacterised | src/App.tsx:219 | `getFullYear` answers `y` exactly when the time value lies between midnight UTC of 1 January of `y` and of `y + 1` |
| Calendar.YearOfMonotone | src/App.tsx:219 | a later time value never falls in an earlier year |
| Calendar.EpochYear | src/App.tsx:219 | `getFullYear` of time value 0 is 1970 |
| Calendar.NewYear2025 | src/App.tsx:219 | the last millisecond of 2024 and the first of 2025 fall in 2024 and 2025 |
| Withdrawals.Ids | src/components/WithdrawalTable.tsx:42 | the id column has one entry per request, in order |
| Withdrawals.WithIdsExactly | src/App.tsx:43 | resolving ids keeps exactly the store's requests whose id is listed, as often as stored and in store order |
| Withdrawals.PostedStatusesAreLower | src/App.tsx:72 | the posted statuses `successful` and `failed` are already lower case |
| Withdrawals.ExplorerUrlNamesSignature | src/pages/TransactionDetails.tsx:94 | the explorer link is the fixed prefix, the signature and the devnet suffix, so different signatures give different links |
| RequestFilter.TimeWindow | src/App.tsx:205-222 | a sliding window passes exactly when the age in milliseconds is at most 1, 3, 7 or 30 days, so a future timestamp passes; year-to-date passes exactly the timestamps from midnight UTC of 1 January of the current year to the end of that year |
| RequestFilter.FilterWithdrawalsExactly | src/App.tsx:203-236 | a request is listed exactly when the time, tag, status and search tests all pass, as often as stored, in store order |
| RequestFilter.FilterWithdrawalsStaged | src/App.tsx:235 | the four tests applied as four successive filters give the same list as the combined filter |
| RequestFilter.SearchIsCaseInsensitiveSubstring | src/App.tsx:232-233 | a non-empty search passes exactly when the lower-cased query occurs in the lower-cased address, and lower-casing either side first changes nothing |
| RequestFilter.StatusFilterIsCaseSensitive | src/App.tsx:229 | the status filter compares exactly: `pending` rejects `Pending` |
| Settlement.ApproveWithLoseIsRefused | src/App.tsx:42-50 | an approve whose batch holds a `lose` request raises its alert and changes nothing else: no flag, no transfer, no post, no history, same store |
| Settlement.ProcessingFlagIsReset | src/App.tsx:58-121 | approve and reject raise the processing flag first and clear it last, touching it nowhere between, and leave it cleared whatever the outcomes |
| Settlement.ApproveSettlesBatch | src/App.tsx:60-115 | a successful approve makes exactly one transfer, from the operator's key, paying each resolved request its amount; makes exactly one post, of one `successful` record per request with the one signature; prepends one history entry and refreshes |
| Settlement.RejectMarksFailed | src/App.tsx:122-155 | a reject makes no transfer and exactly one post, of one `failed` record without signature per request; once the backend accepts, it prepends one entry by the key or `Unknown` and takes the refresh's store |
| Settlement.FailureLeavesStore | src/App.tsx:84-86 | a refused post or a failed transfer leaves the store and history unchanged, ends in an alert and clears the flag, after the transfer was already attempted |
| Settlement.OtherActionsOnlyRecord | src/App.tsx:180-190 | review, and approve without a wallet, prepend one history entry and do nothing else |
| Settlement.ExplorerLinkOnlyForApprovals | src/App.tsx:92-190 | a bulk action adds at most one history entry, in front; it has a signature exactly when it is an approve with a connected wallet, and gets an explorer link exactly then and when the signature is not empty |
| Settlement.WithIdsSameButStatus | src/App.tsx:43 | resolving ids against two stores that differ only in status gives batches that differ only in status |
| Settlement.StatusNeverConsulted | src/App.tsx:52-55 | the statuses of the requests never change what a bulk action logs, records or leaves in its flag |
| Settlement.RefreshReplacesOnSuccess | src/App.tsx:102-115 | a refresh replaces the store only on a `success` body, with the rows in order, each field copied and the status capitalised; only a thrown fetch counts as thrown |
| Settlement.DefaultFilterAfterRefresh | src/App.tsx:21 | a backend row with status `pending` passes the default status filter after the initial load but not once a refresh has capitalised it |
| Settlement.AdminConsole.constructor | src/App.tsx:19-31 | the console starts with year-to-date, no tag filter, status `pending`, page 1 of 10, loading, and empty store and history |
| Settlement.AdminConsole.FilteredWithdrawals | src/App.tsx:275-281 | the table is handed exactly the stored requests the console's four filter fields let through, in store order |
| Settlement.AdminConsole.LoadWithdrawals | src/App.tsx:240-272 | the initial load takes the rows with their raw status on a `success` body, and otherwise sets the error banner and keeps the store |
| Settlement.AdminConsole.SetProcessing | src/App.tsx:58 | the flag takes the new value and the change is logged |
| Settlement.AdminConsole.RefreshRequests | src/App.tsx:157-170 | the refresh is logged and its effect on the store is the refresh function's |
| Settlement.AdminConsole.HandleBulkAction | src/App.tsx:41-191 | the new store, history, flag and log are those of `BulkActionStep` |
| Settlement.AdminConsole.ApproveBatch | src/App.tsx:58-121 | the approve branch after validation ends in the state `ApproveStep` gives |
| Settlement.AdminConsole.RejectBatch | src/App.tsx:122-179 | the reject branch ends in the state `RejectStep` gives for the batch resolved from the old store |
| WithdrawalTable.PageWindow | src/components/WithdrawalTable.tsx:37-38 | from page 1 on, a page holds at most the page size of consecutive requests from `(page - 1) * size` on, cut to the list |
| WithdrawalTable.PagesAreConsecutive | src/components/WithdrawalTable.tsx:37-38 | a page followed by the next is the two-page stretch of the list from the first's start, so pages neither overlap nor skip |
| WithdrawalTable.ToggleFlipsOne | src/components/WithdrawalTable.tsx:48-56 | a row click flips that id's membership and no other, keeps the selection free of repeats and changes its size by one |
| WithdrawalTable.ToggleTwice | src/components/WithdrawalTable.tsx:48-56 | two clicks restore the selected set, and restore the selection exactly when the id was not selected |
| WithdrawalTable.DedupOfDistinct | src/components/WithdrawalTable.tsx:42 | a set built from a repeat-free list lists it unchanged |
| WithdrawalTable.HeaderCheckedIffAllSelected | src/components/WithdrawalTable.tsx:122 | with the selection inside a page of distinct ids, the header is checked exactly when the page is non-empty and all its rows are selected |
| WithdrawalTable.HeaderCheckedBySizeOnly | src/components/WithdrawalTable.tsx:122 | the header compares sizes only: one stale selected id checks it over a one-row page whose row is not selected |
| WithdrawalTable.SelectAllChecksHeader | src/components/WithdrawalTable.tsx:40-46 | selecting all on a non-empty page of distinct ids checks the header |
| WithdrawalTable.TableState.constructor | src/components/WithdrawalTable.tsx:35 | the table mounts with an empty selection |
| WithdrawalTable.TableState.HandleSelectAll | src/components/WithdrawalTable.tsx:40-46 | checking selects exactly the ids on the current page, and checks the header on a non-empty page of distinct ids; unchecking selects none and unchecks the header |
| WithdrawalTable.TableState.HandleSelectRow | src/components/WithdrawalTable.tsx:48-56 | a row click toggles that id and keeps the selection free of repeats |
| WithdrawalTable.TableState.HandleBulkAction | src/components/WithdrawalTable.tsx:58-61 | the selection in insertion order is handed on, non-empty because the buttons are disabled otherwise, and then cleared |
| WithdrawalTable.TableState.Rerender | src/components/WithdrawalTable.tsx:63-66 | new props clear the selection exactly when the page or the page size changed |
| PhantomWallet.TransitionsKeepConsistency | src/contexts/PhantomWallet.tsx:33-88 | every transition keeps `connected` true exactly when a key is held |
| PhantomWallet.ConnectOutcomes | src/contexts/PhantomWallet.tsx:63-76 | `connect` changes the state only when a provider approves, and then holds the approved key |
| PhantomWallet.DisconnectUndoesConnect | src/contexts/PhantomWallet.tsx:78-88 | a successful disconnect returns any connected session to the initial state and is idempotent |
| PhantomWallet.CheckConnectionIsGuardedConnect | src/contexts/PhantomWallet.tsx:38-48 | the silent reconnect acts as `connect` on a Phantom provider and does nothing otherwise |
| PhantomWallet.EventsMatchCalls | src/contexts/PhantomWallet.tsx:50-58 | the provider's connect and disconnect events have the effect of a successful `connect` and `disconnect` |
| PhantomWallet.WalletSession.constructor | src/contexts/PhantomWallet.tsx:34-35 | the session starts disconnected with no key and no subscription |
| PhantomWallet.WalletSession.Mount | src/contexts/PhantomWallet.tsx:37-61 | mounting subscribes to a present provider's events and then runs the silent reconnect |
| PhantomWallet.WalletSession.CheckConnection | src/contexts/PhantomWallet.tsx:38-48 | a trusted reconnect on a Phantom provider stores the key; a failure is swallowed |
| PhantomWallet.WalletSession.Connect | src/contexts/PhantomWallet.tsx:63-76 | with no provider the install page opens and nothing changes; an approval stores the key; a rejection changes nothing |
| PhantomWallet.WalletSession.Disconnect | src/contexts/PhantomWallet.tsx:78-88 | only a present provider's successful disconnect clears both fields |
| PhantomWallet.WalletSession.HandleConnectEvent | src/contexts/PhantomWallet.tsx:50-53 | the connect event stores its key and marks the session connected |
| PhantomWallet.WalletSession.HandleDisconnectEvent | src/contexts/PhantomWallet.tsx:55-58 | the disconnect event clears both fields |
| TransactionHistory.FilterHistoryExactly | src/pages/TransactionHistory.tsx:55-58 | an empty query lists everything; a non-empty one keeps exactly the entries whose lower-cased address contains it, as often as fetched and in order |
| TransactionHistory.EmptyStateMessageCases | src/pages/TransactionHistory.tsx:108-112 | the placeholder appears exactly when nothing is listed, says nothing was recorded exactly when nothing was fetched, and otherwise reports a non-empty query that matched nothing |
| TransactionHistory.StatusIconIgnoresCase | src/pages/TransactionHistory.tsx:43-51 | the icon ignores case: the success icon exactly for `successful` and the failure icon exactly for `failed`, in any capitalisation |
| TransactionHistory.StatusIconExamples | src/pages/TransactionHistory.tsx:43-51 | `Successful` and `SUCCESSFUL` get the success icon, `FAILED` the failure icon, `pending` the default |
| TransactionHistory.AmountTestIsCaseSensitive | src/pages/TransactionHistory.tsx:129 | the amount test is exact: `Successful` gets the success icon but no amount |
| TransactionHistory.TypeLabel | src/pages/TransactionHistory.tsx:127 | the row heading is the transaction type with only its first letter changed: same length, same tail, same text to a case-insensitive comparison |
| TransactionDetails.FindTransactionFirst | src/pages/TransactionDetails.tsx:15-18 | the not-found view shows exactly when no entry has the route's id; otherwise the first such entry is shown |
| TransactionDetails.InvolvedWithdrawalsExactly | src/pages/TransactionDetails.tsx:57-59 | the involved requests are exactly the store's requests listed by the entry, in store order |
| TransactionDetails.ActionLabelsDistinct | src/pages/TransactionDetails.tsx:35-55 | each action has its own text and its own icon |
| TransactionDetails.ActionIconMatchesPostedStatus | src/pages/TransactionDetails.tsx:35-44 | an approve shows the icon the history page uses for `successful`, and a reject the one it uses for `failed`: the statuses the batch is posted with |
| TransactionDetails.HeadingNoun | src/pages/TransactionDetails.tsx:84-85 | the noun is `request` exactly for a count of one and `requests` otherwise |

## Left out

- Network and JSON. The `fetch` calls and JSON parsing are not modelled. Their
  outcomes are `Oracle` and `PendingResponse` parameters. A body whose fields
  have the wrong JSON types, which would throw mid-mapping, is not modelled.
- Chain transfer. `src/services/solana.ts`, the chain transfer, is not part of
  this model. It is a single oracle outcome, one signature or a failure, so its
  floating-point lamport conversion and its confirmation wait are not modelled.
- Amounts. Amounts are carried as `real` and are never computed on. `toFixed`
  formatting is left out.
- Time. Time values are integer milliseconds, and `now` is a parameter rather
  than `new Date()`.
  - One `now` serves as both the records' `updated_at` and the entry's
    timestamp.
  - The calendar year is read in UTC, not the browser's time zone.
  - Invalid dates and the limits of the JavaScript date range are not modelled.
- Nondeterminism and timers. The history entry's random id is an oracle field.
  The five-second timer that hides the success toast is left out; only the
  toast's appearance is logged.
- Case mapping. Only ASCII letters are mapped; Unicode case mapping is left out.
- Views. The view components (badges, dropdowns, notifications, routing, the
  wallet guard and header) are styling and routing, and are left out.
- Metrics. The table's metrics fetch and the house-balance update are left out.
  They touch no state of the core.
- Wallet allow-list. The code has none, so none is modelled.
- Concurrency. Each bulk action runs as one atomic call.
  - Interleaving with renders or with another click is not modelled.
  - The buttons' `isProcessing` gate is not a precondition of
    `TableState.HandleBulkAction`.
- WithdrawalTable.TableState.HandleBulkAction: models the handler `onBulkAction`
  as always supplied, because the console always passes `handleBulkAction`.
- RequestFilter.MatchesTime: the switch's `default` branch is not modelled,
  because the range type has only the five ranges.
- Public keys are their text form. `toString()` of a key object is taken as the
  identity.
- The shortened key display in the wallet header is view code and is left out.
