# Dini, modelled in Dafny

Dini is a small teaching cryptocurrency. The repository holds several
generations of the same ideas side by side. This project models their core
logic and proves properties of those models. One Dafny module stands for
one source file, and shared helpers have modules of their own.

- **Frontends.** The miner dashboard (`MinerPage`), the second dashboard
  (`Dini2Page`) and the home page (`HomePage`) poll a transaction list. They
  merge each snapshot into their own state (`ClientTx`) and keep a running
  balance. `UserContext` is the session context with its heartbeat.
  `ProgressMiningModal` and `SlotMiningModal` are the two mining dialogs.
  `History` is the transaction-history card. React state is held in class
  fields that the event handlers update.
- **Mock backends and servers.** `SampleBackend` is the Flask mock and
  `FrontendBackend` the FastAPI mock. `SessionManager` stores the active
  sessions, refreshes them and sweeps out idle ones; the session ids
  themselves come from `UserManager`'s `create_session`. `UserManager` is the
  user server. `PortManager` is the
  port allocator; the two copies in the repository are identical.
- **Mempools and wrappers.** `MinerMempool` and `NodeMempool` are the two
  mempools. `TransactionWrapper` and `Action` are the transaction and
  action wrappers.
- **Ledgers and chains.**
  - `Ledger`, `LightChain` and `LegacyLightChain` are the light ledgers.
    `Wallet` is the wallet.
  - There are three block and chain pairs:
    - `CoreBlock` and `CoreChain`: the tipping block and its chain.
    - `SignedBlock` and `SignedChain`: the signed-transaction chain.
    - `MinedBlock` and `MinedChain`: the string-transaction chain.
- **Wire protocols.** `CommProtocol`, `CoreProtocol`, `FramedProtocol` and
  `PeerProtocol` are four wire protocols, over the socket model in `Wire`.
- **Nonce search.** `RangeMining` is the multiprocess nonce search, which
  both copies of `multiprocess_mining.py` share. `MiningWorker` is the
  worker of `mining_process.py`.

Hashes, signatures, key parsing, pickling, ISO dates, clocks and random
draws are not computed. Each of them is a function or value parameter of the
operation that uses it. A proved property therefore holds for every hash
function, every signature scheme and every draw. Python's integers and
strings are Dafny's `int` and `seq<char>`. Bytes are integers below 256.
Python's `s[:n]`, `s[n:]`, `int(s)`, `str.split` and `str.join` are written out
in `PyText`, including their behaviour on negative and out-of-range
arguments.

Some behaviour of the code is easy to misread; the model follows the code
as written:

- Merging a polled snapshot (`ClientTx.Merge`) drops local entries that the
  snapshot no longer holds, because the new list is `data.map(...)` over the
  snapshot (frontend/app/miner/page.tsx:34-48).
- When a transaction becomes approved, the miner dashboard adds
  `amount / 2` to the balance for a buy or a mine. It subtracts
  `amount - 2` for a sell or a transfer (frontend/app/miner/page.tsx:39-41).
  The model computes exactly those changes, not the full amount.
- A heartbeat that the server rejects ends the session in memory
  (frontend/contexts/user-context.tsx:49-51). It does not clear the stored
  session in `localStorage`; only `logout` does (line 75).
- The home page's balance counts only buys, sells and transfers
  (frontend/app/page.tsx:40-45). Approved mined or received records leave
  the balance unchanged.
- The Python-side bugs in the table under "## Findings" are modelled as
  written. A corrected twin stands beside each one.

## Model

| member | source | states |
|---|---|---|
| MinerAction.NewAction | network/miner/action.py:5-11 | Every field is stored as given, and a missing timestamp becomes the current time `now`. |
| MinerAction.DetailsToJson | network/miner/action.py:26 | No details give JSON null and text stays text; an object with `to_dict` is converted and a plain dict is kept. |
| MinerAction.ToDict | network/miner/action.py:19-27 | The dict carries the id, type, amount and status unchanged, the ISO text of the timestamp, and a details entry. |
| MinerAction.FromDict | network/miner/action.py:29-40 | Without "timestamp" the action is stamped `now`. With it, the result fails exactly when the text does not parse. The other fields are copied. |
| MinerAction.RoundTrip | network/miner/action.py:19-40 | If the ISO codec round-trips, `from_dict(to_dict(a))` gives back `a` whenever its details have no `to_dict` of their own. |
| MinerAction.RoundTripConvertible | network/miner/action.py:26-31 | Details with their own `to_dict` come back as the plain dict they produced, not as the original object. |
| MinerAction.MissingTimestampIsNow | network/miner/action.py:10-32 | A dict without "timestamp" always converts, and the action is stamped with the current time. |
| ClientTx.FindById | frontend/app/miner/page.tsx:36 | The lookup returns nothing exactly when no record has the id. Otherwise it returns the first record with that id. |
| ClientTx.Merge | frontend/app/miner/page.tsx:34-50 | The merged list has one entry per snapshot record, in snapshot order, with the snapshot's id and status. Each entry is the server's record or the local record found under that id. |
| ClientTx.MergeKeepsUnchanged | frontend/app/miner/page.tsx:38-46 | A local record whose status is unchanged is kept. A missing or changed one is replaced by the server's record. |
| ClientTx.FindInMerged | dini2/app/page.tsx:35-53 | With distinct snapshot ids, looking up the `i`-th snapshot id in the merged list finds its `i`-th entry. |
| ClientTx.MergeIdempotent | frontend/app/miner/page.tsx:38-46 | Merging the same snapshot a second time leaves the list unchanged. |
| MinerPage.Delta | frontend/app/miner/page.tsx:38-43 | A record moves the balance only when it is approved and was not approved locally. Then a buy or mine adds `amount/2` and a sell or transfer subtracts `amount-2`. |
| MinerPage.RepollChangesNothing | frontend/app/miner/page.tsx:38-46 | A second poll of the same snapshot changes neither the list nor the balance. |
| MinerPage.ApprovedOnce | frontend/app/miner/page.tsx:38-39 | A record already approved locally is never credited or debited again. |
| MinerPage.MinerPage.constructor | frontend/app/miner/page.tsx:19-25 | The page starts with balance 2000, no records, no request made, mining off and the modal closed. |
| MinerPage.MinerPage.FetchAllTransactions | frontend/app/miner/page.tsx:28-65 | A failed fetch changes nothing. A snapshot replaces the list by the merge and adds the sum of the per-record deltas to the balance. Polling stays on exactly while a record is pending. |
| MinerPage.MinerPage.CreateTransaction | frontend/app/miner/page.tsx:67-90 | One pending POST is always sent. A 2xx answer with a body prepends the record; anything else leaves the list unchanged. The balance never moves. |
| MinerPage.MinerPage.StartMining | frontend/app/miner/page.tsx:93-103 | While mining is set nothing changes. Otherwise mining is set and the modal opens. |
| MinerPage.MinerPage.SetMiningOpen | frontend/app/miner/page.tsx:22 | Only the modal's open flag changes. |
| MinerPage.MinerPage.HandleMiningComplete | frontend/app/miner/page.tsx:106-116 | Exactly one pending `mine` record of 20 is posted and mining is cleared. The modal stays as it was and the balance is untouched. |
| Dini2Page.Delta | dini2/app/page.tsx:41-47 | A record moves the balance only when it is approved and was not approved locally. A changed or new record moves it by its home-page contribution: `+amount` for a buy, `-amount` for a sell or transfer. |
| Dini2Page.Deltas | dini2/app/page.tsx:36-51 | There is one delta per snapshot record, computed against the local record with the same id. |
| Dini2Page.RepollChangesNothing | dini2/app/page.tsx:41-42 | Re-merging an identical snapshot leaves the list and the balance unchanged. |
| Dini2Page.FindAfterAgree | dini2/app/page.tsx:38 | After the server appended or settled records, an old id is found at its old position and a new id is not found at all. |
| Dini2Page.DeltaAfterAgree | dini2/app/page.tsx:41-47 | Each record's delta is its new contribution minus its contribution in the previous snapshot. |
| Dini2Page.MergeAfterAgree | dini2/app/page.tsx:35-55 | After the merge, the list again agrees with the latest snapshot, field by field. |
| Dini2Page.PollStep | dini2/app/page.tsx:35-55 | One poll moves the balance by the difference of the two snapshots' contribution sums. |
| Dini2Page.PollsFromChain | frontend/sample_backend.py:43-46 | A chain of snapshots, each evolving from the last, is a valid polling history. |
| Dini2Page.ReplayFrom | dini2/app/page.tsx:35-55 | Along such a history the list keeps agreeing with the latest snapshot, and the balance stays 1000 plus that snapshot's total. |
| Dini2Page.PollsMatchRecompute | dini2/app/page.tsx:23-47 | If the server only appends and only moves records out of pending, the dini2 balance is 1000 plus the home page's recomputed balance of the latest snapshot. |
| Dini2Page.Dini2Page.constructor | dini2/app/page.tsx:23-26 | The page starts with balance 1000, no records, no request and no polling. |
| Dini2Page.Dini2Page.FetchAllTransactions | dini2/app/page.tsx:28-73 | A failed fetch changes nothing. A snapshot replaces the list by the merge and moves the balance by the deltas. Polling stays on exactly while a record is pending. |
| Dini2Page.Dini2Page.CreateTransaction | dini2/app/page.tsx:75-98 | One pending POST is always sent. Only a 2xx answer with a body prepends the record. The balance is unchanged. |
| HomePage.Approved | frontend/app/page.tsx:40 | The filter keeps every approved record as often as the snapshot holds it, and nothing else. |
| HomePage.ApprovedAppend | frontend/app/page.tsx:40 | The filter keeps the snapshot's order: filtering a concatenation concatenates the filtered parts. |
| HomePage.RecomputeIsSum | frontend/app/page.tsx:24-45 | The recomputed balance is 0 plus the approved buy amounts minus the approved sell and transfer amounts. Other types and records that are not approved add nothing. |
| HomePage.RecomputeOrderFree | frontend/app/page.tsx:41-45 | Two snapshots with the same records, in any order, give the same balance. |
| HomePage.HomePage.constructor | frontend/app/page.tsx:16-22 | The first render shows balance 1000 with no records and no request. |
| HomePage.HomePage.SyncPolling | frontend/app/page.tsx:52-61 | The poll interval runs exactly when the user has a session id. Nothing else changes. |
| HomePage.HomePage.FetchAllTransactions | frontend/app/page.tsx:26-50 | Without a session, no request is made. A 2xx answer replaces the list wholesale and sets the recomputed balance. A non-ok or failed fetch leaves the list and the balance as they were. |
| HomePage.HomePage.CreateTransaction | frontend/app/page.tsx:64-106 | Without a session, nothing is sent and nothing changes. Otherwise one pending POST is sent under the session id. A 401 logs out, navigates to `/auth` and stops polling; it sends nothing more and keeps the list and the balance. Any other failure sends nothing more and changes neither the session, the list nor the balance. A success sends one GET, which replaces the list and the balance when it succeeds and leaves both when it fails. The list is never updated locally. |
| UserContext.UserStore.constructor | frontend/contexts/user-context.tsx:21-22 | The provider starts with no user, no navigation and no heartbeat, whatever storage holds. |
| UserContext.UserStore.Mount | frontend/contexts/user-context.tsx:26-34 | A stored record restores the user without navigating. With no record, a path other than `/auth` redirects to `/auth` and `/auth` itself does not. Storage is left alone. |
| UserContext.UserStore.Beat | frontend/contexts/user-context.tsx:37-60 | A rejected heartbeat clears the user and stops the heartbeat. Storage is left as it is. An accepted beat or a network failure changes nothing. |
| UserContext.UserStore.Login | frontend/contexts/user-context.tsx:62-71 | The user becomes `username` with the placeholder session id, the same record is stored, and the heartbeat starts. |
| UserContext.UserStore.Logout | frontend/contexts/user-context.tsx:73-77 | Memory and storage are cleared, the heartbeat stops, and the router goes to `/auth`. |
| UserContext.LoginThenReload | frontend/contexts/user-context.tsx:26-71 | A login followed by a fresh mount restores the same user from storage. |
| UserContext.LogoutThenReload | frontend/contexts/user-context.tsx:26-77 | A logout followed by a fresh mount away from `/auth` restores no user and routes to `/auth` again. |
| ProgressMiningModal.ProgressModal.constructor | dini2/components/mining-modal.tsx:21-23 | The modal starts idle at progress 0. No run has started and none has completed. |
| ProgressMiningModal.ProgressModal.SetOpen | dini2/components/mining-modal.tsx:25-31 | Closing resets progress to 0 and stops mining. Opening changes only the open flag. The invariant holds: progress stays within 0..100, the interval runs exactly while mining, and completions plus the running run equal the runs started. |
| ProgressMiningModal.ProgressModal.DialogOpenChange | dini2/components/mining-modal.tsx:66-73 | While mining, an open or close request is ignored. Otherwise it is passed to the parent. |
| ProgressMiningModal.ProgressModal.CloseClicked | dini2/components/mining-modal.tsx:87-94 | The Close button does nothing while mining. Otherwise it closes and resets the dialog. |
| ProgressMiningModal.ProgressModal.StartClicked | dini2/components/mining-modal.tsx:60-101 | Start does nothing while mining. Otherwise it begins a new run at progress 0. |
| ProgressMiningModal.ProgressModal.Tick | dini2/components/mining-modal.tsx:40-58 | A tick that sees exactly 100 stops the interval, completes the run exactly once, resets the modal and closes it. Any other tick adds the draw, capped at 100, so progress never decreases. |
| ProgressMiningModal.RunToCompletion | dini2/components/mining-modal.tsx:33-63 | Any sequence of random draws completes a run at most once. |
| SlotMiningModal.SpinResult | frontend/components/mining-modal.tsx:31 | A spin shows three symbols, each drawn from the six-symbol set. |
| SlotMiningModal.MiningDuration | frontend/components/mining-modal.tsx:35 | The drawn mining duration is a whole number of milliseconds, at least 3000 and below 7000. |
| SlotMiningModal.SlotModalAsWritten.constructor | frontend/components/mining-modal.tsx:23-25 | The modal starts idle, showing "?" three times, with no jackpot and no timeout scheduled. |
| SlotMiningModal.SlotModalAsWritten.Effect | frontend/components/mining-modal.tsx:27-46 | Each run of the effect while mining installs the spin interval and schedules one more completion timeout. The cleanup never cancels those timeouts. |
| SlotMiningModal.SlotModalAsWritten.StartClicked | frontend/components/mining-modal.tsx:48-81 | Start is ignored while mining. Otherwise it sets mining, clears the jackpot, and the effect schedules a timeout. |
| SlotMiningModal.SlotModalAsWritten.Spin | frontend/components/mining-modal.tsx:30-46 | A spin sets new symbols. Because `slots` is an effect dependency, the effect re-runs and schedules another timeout. |
| SlotMiningModal.SlotModalAsWritten.FireTimeout | frontend/components/mining-modal.tsx:37-43 | Any pending timeout stops mining, shows the jackpot and calls `onMiningComplete`, whether or not a run is still going. |
| SlotMiningModal.OneSpinCompletesTwice | frontend/components/mining-modal.tsx:27-46 | One start followed by one spin calls `onMiningComplete` twice. |
| SlotMiningModal.SlotModal.constructor | frontend/components/mining-modal.tsx:23-25 | In the corrected component, the modal starts idle with no completion pending. |
| SlotMiningModal.SlotModal.StartClicked | frontend/components/mining-modal.tsx:48-51 | Start begins one run with one pending completion. Completions never exceed starts. |
| SlotMiningModal.SlotModal.Spin | frontend/components/mining-modal.tsx:30-32 | A spin changes the symbols and schedules nothing. |
| SlotMiningModal.SlotModal.FireTimeout | frontend/components/mining-modal.tsx:37-43 | The one pending completion fires, and then completions equal starts. |
| SlotMiningModal.SpinsCompleteOnce | frontend/components/mining-modal.tsx:27-46 | However many spins happen, one start completes exactly once. |
| History.StatusLabel | frontend/components/history.tsx:21-32 | A label is shown exactly for the statuses pending, failed and approved. Any other status shows "". |
| History.StatusLabelsDistinct | frontend/components/history.tsx:21-32 | The three known statuses have three different labels. |
| History.TypeLabel | frontend/components/history.tsx:64-68 | The label starts with the type. It is longer than the type exactly for a transfer or receive with non-empty details, and then the details can be read back from between " (" and the closing ")". |
| History.Displayed | frontend/components/history.tsx:34-42 | The expanded view is a newest-first permutation of the records. The collapsed view shows `min(n, 5)` records, also newest first, all drawn from the list. |
| History.CollapsedShowsNewest | frontend/components/history.tsx:39-42 | No record hidden by the collapsed view is newer than any record it shows. |
| History.CollapsedIsPrefix | frontend/components/history.tsx:40-42 | The collapsed view is the start of the expanded view. |
| History.ShowsToggle | frontend/components/history.tsx:79 | The Show All / Show Less button appears exactly when the collapsed view hides something, that is, with more than five records. |
| Sorting.SortDesc | frontend/components/history.tsx:35-37 | The sort returns a permutation of its input. |
| Sorting.SortDescSorted | frontend/components/history.tsx:35-37 | The sorted copy descends by key. |
| Sorting.InsertDescSorted | frontend/components/history.tsx:35-37 | Inserting into a descending list keeps it descending. |
| Sorting.TopPrefix | network/miner/mempool.py:70-76 | In a prefix of the sorted copy, every element has a key at least that of every element left out. |
| MinerMempool.Unprocessed | Miner/mempool.py:23 | After the filter, every remaining transaction was in the pool and has an unprocessed hash. Every pooled transaction with an unprocessed hash survives. |
| MinerMempool.UnprocessedIsSubsequence | Miner/mempool.py:21-23 | An update only removes transactions: the result is a sub-multiset of the pool. |
| MinerMempool.UnprocessedIdempotent | Miner/mempool.py:21-23 | Updating twice with the same processed transactions is the same as updating once. |
| MinerMempool.HashesOf | Miner/mempool.py:22 | The hash set holds exactly the hashes of the processed transactions. |
| MinerMempool.SelectIsTop | Miner/mempool.py:13-19 | The selection has `min(n, 10)` transactions taken from the pool, in descending priority. None of them has lower priority than a transaction left out. |
| MinerMempool.Mempool.constructor | Miner/mempool.py:8-11 | A missing list becomes an empty pool; a given list is kept as it is. |
| MinerMempool.Mempool.SelectTransactions | Miner/mempool.py:13-19 | The selection has `min(10, size)` transactions, highest priority first, all drawn from the pool. None has lower priority than one left out. |
| MinerMempool.Mempool.Update | Miner/mempool.py:21-23 | The pool becomes the transactions whose hash is not among the processed transactions' hashes, in their original order. |
| NodeMempool.Mempool.constructor | network/miner/mempool.py:13-17 | A new pool is empty. |
| NodeMempool.Mempool.AddTransactions | network/miner/mempool.py:24-35 | The pool becomes the old pool together with every listed transaction. A transaction already present is not added twice. |
| NodeMempool.Mempool.RemoveTransactions | network/miner/mempool.py:37-48 | The pool loses every listed transaction. Absent ones are ignored. |
| NodeMempool.Mempool.GetAllTransactions | network/miner/mempool.py:53-60 | The list has every pooled transaction exactly once and nothing else. |
| NodeMempool.Mempool.SelectTransactions | network/miner/mempool.py:62-80 | The selection has no repeats, comes from the pool and descends by tip. It has `min(n, size)` transactions, or the size less `-n` for a negative count. No transaction left out has a larger tip than one selected. |
| NodeMempool.SampleCheck | network/miner/mempool.py:83-108 | The module's own check holds. Adding ten distinct transactions gives ten, removing one leaves nine, and selecting two gives two with the larger tip first. |
| NodeMempool.PermutationDistinct | network/miner/mempool.py:70-72 | Sorting a list without repeats gives a list without repeats. |
| NodeMempool.SetOfDistinct | network/miner/mempool.py:99 | A list without repeats has as many elements as its set of members. |
| PortManager.Range | communication/port_manager.py:21 | The initial pool holds exactly the ports from `start_port` to `end_port`, both inclusive. |
| PortManager.RangeSize | communication/port_manager.py:74 | The range holds `end - start + 1` ports, or none when the end lies below the start. |
| PortManager.DefaultRangeSize | communication/port_manager.py:13-21 | With the default arguments the pool offers the 1001 ports from 5000 to 6000, both included. |
| PortManager.PortManager.constructor | communication/port_manager.py:13-23 | Every port of the range starts available and none is in use. The partition invariant holds: the two sets are disjoint and together make up the range. |
| PortManager.PortManager.AllocatePort | communication/port_manager.py:25-42 | With an empty pool the call fails with "No available ports." and changes nothing. Otherwise one available port moves to in use and is returned. The partition is kept. |
| PortManager.PortManager.ReleasePort | communication/port_manager.py:44-61 | A port in use goes back to the pool. Any other port changes nothing. The partition is kept. |
| PortManager.AllocateAll | communication/port_manager.py:87-91 | Allocating until the pool is empty hands out distinct ports, and they are exactly the ports now in use. |
| PortManager.ReleaseAll | communication/port_manager.py:99-103 | Releasing every port in use restores the full range and leaves nothing in use. |
| PortManager.ExhaustAndRestore | communication/port_manager.py:64-105 | The module's own check holds. Each port of the range is handed out exactly once, the next allocation fails with "No available ports.", and releasing them all restores the range. |
| PyDict.Get | backend/user_session_manager.py:33-34 | A lookup fails exactly when the key is absent. Otherwise it returns a value stored under that key. |
| PyDict.Put | backend/user_session_manager.py:29 | Assigning overwrites the entry for a present key in place and appends a new key at the end. No other entry changes. |
| PyDict.Remove | backend/user_session_manager.py:45 | Deleting a key keeps every other entry, in order, and leaves the key absent. |
| PyDict.PutKeepsDistinct | backend/user_session_manager.py:29-35 | An assignment keeps the keys distinct. The key then maps to the new value. |
| PyDict.RemoveKeepsDistinct | backend/user_session_manager.py:45 | A deletion keeps the keys distinct. |
| PyDict.GetDistinct | backend/user_session_manager.py:33-34 | With distinct keys, looking up the key at any position finds that position's value. |
| SessionManager.Without | backend/user_session_manager.py:54-56 | Removing a list of ids keeps exactly the entries whose id is not listed. |
| SessionManager.Active | backend/user_session_manager.py:47-56 | The sweep keeps exactly the sessions idle for at most 300 seconds. |
| SessionManager.Stale | backend/user_session_manager.py:50-53 | The sweep drops exactly the sessions idle for more than 300 seconds. |
| SessionManager.WithoutStale | backend/user_session_manager.py:50-56 | Removing the ids of the idle sessions leaves exactly the active entries. |
| SessionManager.StaleKeysMatch | backend/user_session_manager.py:50-53 | With distinct ids, an id is collected exactly when its session is idle for more than 300 seconds. |
| SessionManager.UserSessionManager.constructor | backend/user_session_manager.py:14-16 | The table starts empty and nothing has been cleaned up. |
| SessionManager.UserSessionManager.AddUser | backend/user_session_manager.py:26-29 | The session is inserted or overwritten with the instance and the current time, and then maps to that pair. The ids stay distinct. |
| SessionManager.UserSessionManager.GetUser | backend/user_session_manager.py:31-37 | An unknown id gives nothing and changes nothing. A known id gives its instance and refreshes its time to now. |
| SessionManager.UserSessionManager.RemoveUser | backend/user_session_manager.py:39-45 | A known session is cleaned up once and deleted. An unknown id changes nothing. |
| SessionManager.UserSessionManager.StaleSessionIds | backend/user_session_manager.py:49-53 | The first pass collects the ids idle for more than 300 seconds, in dict order. |
| SessionManager.UserSessionManager.CleanupInactiveSessions | backend/user_session_manager.py:47-56 | Afterwards exactly the active sessions remain. Each idle session's instance is cleaned up once, in dict order. |
| SessionManager.UserSessionManager.GetAllActiveUsers | backend/user_session_manager.py:58-60 | The result has one username per session, in dict order. |
| SessionManager.SweepPrefix | backend/user_session_manager.py:54-56 | Removing the first `k` idle ids one by one drops those entries and cleans up their instances in order. |
| SessionManager.SweepIsActive | backend/user_session_manager.py:47-56 | The whole sweep leaves the active entries and cleans up every idle one. |
| SampleBackend.Rejection | backend/sample_backend.py:78-91 | A POST is accepted exactly when its type is buy, sell, transfer or mine, its amount is present and positive, and its status is missing or "pending". A bad or missing type is reported first. |
| SampleBackend.FinalStatus | backend/sample_backend.py:46-47 | A settled record is approved or failed, and failed exactly when the draw is 2. |
| SampleBackend.Listing | backend/sample_backend.py:58-72 | The GET listing has one view per stored record, in insertion order, with its own id merged in. |
| SampleBackend.MockUser.constructor | backend/sample_backend.py:13-17 | A user starts with the given id and balance and an empty transaction dict. |
| SampleBackend.MockUser.AddTransaction | backend/sample_backend.py:19-30 | The record is stored under its id, overwriting any earlier one. The balance is untouched. |
| SampleBackend.MockUser.UpdateTransactionStatus | backend/sample_backend.py:32-35 | A known id gets the new status and keeps its other fields. An unknown id changes nothing. |
| SampleBackend.HandlePost | backend/sample_backend.py:74-120 | A rejected body gets a 400 with the first error and stores nothing. An accepted body is stored as pending under the fresh id, with the current time and its details or "", and the reply is the stored record. |
| SampleBackend.HandleGet | backend/sample_backend.py:58-72 | The reply is the listing of the user's records. |
| SampleBackend.ProcessInBackground | backend/sample_backend.py:42-48 | After the wait, a known record becomes approved or failed by the draw. An unknown id changes nothing. |
| SampleBackend.AcceptedIsStored | backend/sample_backend.py:94-106 | Storing under a fresh id keeps the ids distinct. The record is listed last and retrievable as pending. |
| SampleBackend.SettleKeepsOthers | backend/sample_backend.py:32-48 | Settling changes only the status of the settled record. Every other record and every position stay as they were. |
| FrontendSampleBackend.SettledStatus | frontend/sample_backend.py:45-46 | A settled record is approved or failed, and failed exactly when the draw is 2. |
| FrontendSampleBackend.FirstMatch | frontend/sample_backend.py:43-70 | The scan finds the first record with the id, pending if that is required. Nothing earlier matches, and nothing is found when nothing matches. |
| FrontendSampleBackend.WithStatus | frontend/sample_backend.py:46-71 | Overwriting one status keeps the list's length. |
| FrontendSampleBackend.SettleEvolves | frontend/sample_backend.py:41-49 | The background settle only moves a pending record out of pending. The list keeps its length and evolves in the sense the dashboards rely on. |
| FrontendSampleBackend.CreateEvolves | frontend/sample_backend.py:51-60 | Appending a created record is an evolution, and a fresh id keeps the ids distinct. |
| FrontendSampleBackend.PutCanRegress | frontend/sample_backend.py:67-73 | The PUT route can move an approved record back to pending, which is not an evolution. |
| FrontendSampleBackend.TransactionStore.constructor | frontend/sample_backend.py:38 | The in-memory list starts empty. |
| FrontendSampleBackend.TransactionStore.UpdateTransactionStatus | frontend/sample_backend.py:41-49 | Only the first pending record with the id is settled, to the draw's status. With none, nothing changes. |
| FrontendSampleBackend.TransactionStore.CreateTransaction | frontend/sample_backend.py:51-60 | The posted fields get a fresh id and the current timestamp, and the new record is appended and returned. |
| FrontendSampleBackend.TransactionStore.Pending | frontend/sample_backend.py:62-65 | The pending route returns every stored pending record as often as it is stored, and nothing else. |
| FrontendSampleBackend.TransactionStore.UpdateTransactionStatusApi | frontend/sample_backend.py:67-73 | The first record with the id gets the new status and is returned. Without one, the reply is 404 and nothing changes. |
| FrontendSampleBackend.PendingOf | frontend/sample_backend.py:64 | The filter keeps every pending record as often as the list holds it, and nothing else. |
| FrontendSampleBackend.PendingOfAppend | frontend/sample_backend.py:64 | The filter keeps the list's order: filtering a concatenation concatenates the filtered parts. |
| UserManager.ByName | backend/users_server/user_manager.py:119-123 | The lookup by username finds nothing exactly when no row has the name. Otherwise it finds a row with that name. |
| UserManager.BySession | backend/users_server/user_manager.py:126-130 | The lookup by session finds nothing exactly when no row holds the session id. Otherwise it finds a row holding it. |
| UserManager.SetSession | backend/users_server/user_manager.py:177-178 | The login UPDATE sets the session column of the named rows and changes no other row. |
| UserManager.ClearSession | backend/users_server/user_manager.py:188-189 | The logout UPDATE clears the session column wherever it holds the id and changes no other row. |
| UserManager.OrEmpty | backend/users_server/user_manager.py:66 | Falsy details become "". Non-empty text is kept as it is. |
| UserManager.ListReply | backend/users_server/user_manager.py:56-74 | If fetching raised, the reply is 500 with the error text. Otherwise it is 200 with one entry per action, in order. Each entry's id is cut to its first 10 characters, its details pass through `or ""`, and its other fields are copied. |
| UserManager.Rejection | backend/users_server/user_manager.py:78-86 | A POST is accepted exactly when its type is buy, sell or transfer and its amount is present and positive. A bad type is reported before a bad amount. |
| UserManager.CallFor | backend/users_server/user_manager.py:88-93 | A buy calls `buy_dinis`, a sell calls `sell_dinis`, and a transfer calls `add_transaction`, each with the posted amount. |
| UserManager.PostReply | backend/users_server/user_manager.py:76-111 | Missing request data gives 500. A rejected body gives 400 with the message, before any call. An accepted body makes one call. A `ValueError` from it gives 400, another error 500, and success 201 with the echoed record. |
| UserManager.LoginThenLookup | backend/users_server/user_manager.py:126-178 | After a login stores a session no other row holds, looking that session up finds the logged-in user. |
| UserManager.LogoutThenLookup | backend/users_server/user_manager.py:126-189 | After a successful logout, no row of the users table holds the session, so resolving it from the table finds nobody. |
| UserManager.RegisterThenLookup | backend/users_server/user_manager.py:133-163 | After registering, the new name is found with its password and session, and names stay distinct. |
| UserManager.UserManager.constructor | backend/users_server/user_manager.py:16-19 | The manager starts with the given user table and an empty instance registry. |
| UserManager.UserManager.ResolveUser | backend/users_server/user_manager.py:40-54 | An active session gives its instance and refreshes its time. Otherwise the user table and the registry are consulted, creating and registering an instance on a miss, and the session is added. A session nobody holds gives nothing and changes nothing. |
| UserManager.UserManager.HandleTransactions | backend/users_server/user_manager.py:36-111 | The users table and the sweep time never change. A session already active keeps its instance and is refreshed to the current time; the registry is unchanged. A session found only in the users table gets the registered instance of its user, or a new instance registered under the username, and becomes active at the current time. A session nobody knows gets 401 and nothing else happens. GET replies with the listing and POST with the POST reply and its call. Any other method gets no reply. |
| UserManager.UserManager.CreateUser | backend/users_server/user_manager.py:133-166 | A taken name gets 400 and nothing changes. A successful insert appends the row with a fresh session, registers an instance, and replies 201 with the session. A failed insert gets 500 and changes nothing. |
| UserManager.UserManager.AuthenticateUser | backend/users_server/user_manager.py:169-183 | An unknown name or a wrong password gets 401 and no new session. The right password with a successful update stores a fresh session and replies 200. A failed update gets 500. |
| UserManager.UserManager.LogoutUser | backend/users_server/user_manager.py:186-194 | A successful update clears the session from every users-table row that holds it and replies 200. A failed one gets 500 and leaves the table as it was. Either way the active sessions and the registry are unchanged. |
| MinerTransactionWrapper.IdOf | network/miner/transaction_wrapper.py:18-19 | A missing signature gives the id "". Otherwise the id is the signature's first `ID_LENGTH` characters, or the whole signature when it is shorter. |
| MinerTransactionWrapper.IdIsPrefix | network/miner/transaction_wrapper.py:19 | The conditional cut is the same as Python's `sig[:ID_LENGTH]`. |
| MinerTransactionWrapper.NewWrapper | network/miner/transaction_wrapper.py:10-22 | The wrapper keeps the transaction and the status and derives its id from the signature. A missing creation time becomes `now`. |
| MinerTransactionWrapper.ToDict | network/miner/transaction_wrapper.py:28-34 | The dict carries the id, the status, the ISO creation time and the transaction's own dict form. |
| MinerTransactionWrapper.FromDict | network/miner/transaction_wrapper.py:36-40 | The result fails exactly when the creation time does not parse. Otherwise it rebuilds the transaction and the status, keeps the parsed creation time, and recomputes the id from the signature. |
| MinerTransactionWrapper.StoredIdIgnored | network/miner/transaction_wrapper.py:36-40 | The stored "id" plays no part in `from_dict`. |
| MinerTransactionWrapper.RoundTrip | network/miner/transaction_wrapper.py:10-40 | If the ISO codec and the transaction's dict codec round-trip, a constructed wrapper comes back equal from `from_dict(to_dict(w))`. |
| Ledger.NewTx | Blockchain/transaction.py:23-34 | A new transaction stores its keys and amount, with tip 0 and no signature. |
| Ledger.IdentityIsFinerThanEquality | Blockchain/light_blockchain.py:10-12 | The same key object is always an equal key, but two equal key objects need not be the same object. This is why `==` and `is not` disagree in the legacy chain. |
| Ledger.TipSumCons | core/block.py:82-93 | Each transaction's tip counts once in the tip sum, whatever its position. |
| LightChain.HexValue | core/light_blockchain.py:77 | A hex digit of either case has a value below 16; anything else is not a digit. |
| LightChain.HexDigitValue | core/light_blockchain.py:69-77 | Each lower-case digit written by `.hex()` reads back to its value. |
| LightChain.Hex | core/light_blockchain.py:69 | `.hex()` writes two characters per byte. |
| LightChain.HexRoundTrip | core/light_blockchain.py:69-77 | `bytes.fromhex` of `.hex()` gives back the same bytes. |
| LightChain.RelevantOf | core/light_blockchain.py:33-39 | The kept transactions all come from the block and all involve the owner. |
| LightChain.StepsEffect | core/light_blockchain.py:56-57 | Feeding a block's transactions one by one moves the balance by their net effect and appends exactly the relevant ones, in block order. |
| LightChain.RecentIsSuffix | core/light_blockchain.py:81-85 | For `0 < num <=` the count, the answer is the last `num` transactions. |
| LightChain.RecentEdgeCases | core/light_blockchain.py:85 | `num == 0` gives the whole list (Python's `[-0:]`), and `num == -1` drops the first transaction. |
| LightChain.MapTx | core/light_blockchain.py:68-76 | The per-transaction conversion keeps the length and maps each position. |
| LightChain.DataToDict | core/light_blockchain.py:61-70 | The dict carries the owner's PEM, the balance and one entry per transaction; it fails exactly when the latest hash is a truthy text hash, which has no `.hex()`. |
| LightChain.DataFromDict | core/light_blockchain.py:72-79 | A missing or empty latest hash loads as `None`; otherwise the owner is the loaded PEM key and the balance is taken as stored. |
| LightChain.RoundTrip | core/light_blockchain.py:61-79 | A light chain whose hash is bytes or falsy comes back from `to_dict`/`from_dict` with the same balance and transactions, an equal owner key, and the same hash, a falsy one as `None`. |
| LightChain.LightBlockchain.constructor | core/light_blockchain.py:20-24 | Stores owner, balance and latest hash; a missing transaction list becomes empty. |
| LightChain.LightBlockchain.FilterAndAddTransaction | core/light_blockchain.py:26-42 | Returns false exactly for a transaction that involves neither side being the owner; a sent one debits, a received one credits, and a relevant one is appended. The hash is unchanged. |
| LightChain.LightBlockchain.FilterAndAddBlock | core/light_blockchain.py:44-59 | A block is refused exactly when its previous hash is not the latest one, and nothing changes then; otherwise the latest hash becomes the block's and every transaction is filtered in order. |
| LightChain.LightBlockchain.GetRecentTransactions | core/light_blockchain.py:81-85 | Asking for more than there are, or for 0, gives all of them; otherwise the last `num`. |
| LightChain.SampleRun | core/light_blockchain.py:113-138 | The module's own run: from 100, paying 50 and receiving 30 leaves 80, and the block on top of `None` sets the hash to "hash123" and brings the list to four. |
| LegacyLightChain.StopsAfterRaise | Blockchain/light_blockchain.py:26-27 | Once an append has raised inside the block loop, the remaining transactions change nothing. |
| LegacyLightChain.StrangersCreditOwner | Blockchain/light_blockchain.py:10-13 | As written, a transfer between two other keys fails the `is not` test's intent and credits the owner: 100 becomes 140 and the transfer is recorded. |
| LegacyLightChain.PaymentToOwnerRefused | Blockchain/light_blockchain.py:12-16 | A payment whose recipient is the owner's own key object, from someone else, is refused and changes nothing. |
| LegacyLightChain.NoneListRaisesAfterCharging | Blockchain/light_blockchain.py:2-18 | With the default `None` list the balance is still debited, and then the append raises. |
| LegacyLightChain.FixedStepMatchesLightChain | Blockchain/light_blockchain.py:8-18 | The corrected filter on a list is the core light chain's step, and it refuses exactly the transactions that do not involve the owner. |
| LegacyLightChain.FixedIgnoresStrangers | Blockchain/light_blockchain.py:10-16 | With the correction, the transfer between two other keys is refused and the balance stays 100. |
| LegacyLightChain.LightBlockchain.constructor | Blockchain/light_blockchain.py:2-6 | Stores all four arguments; a missing list stays `None`. |
| LegacyLightChain.LightBlockchain.FilterAndAddTransaction | Blockchain/light_blockchain.py:8-18 | The new state and the outcome are the as-written step; the latest hash is untouched. |
| LegacyLightChain.LightBlockchain.FilterAndAddBlock | Blockchain/light_blockchain.py:20-27 | Refused exactly off the latest hash, with nothing changed; otherwise the hash becomes the block's and the transactions are run until one raises. |
| Wallet.StepEffect | core/wallet.py:34-54 | One transaction moves the balance by its effect; an irrelevant one changes nothing, and a relevant one is recorded at the current time and is no longer pending. |
| Wallet.SelfTransferDebits | core/wallet.py:41-43 | A transfer from the owner to the owner takes the sender branch, so the owner pays the amount and the tip. |
| Wallet.StepsEffect | core/wallet.py:67-69 | After a block the balance has moved by the net effect of its transactions, and the books keep distinct keys. |
| Wallet.IrrelevantBlockNoChange | core/wallet.py:46-48 | A block none of whose transactions touch the owner leaves the books unchanged. |
| Wallet.NewestFirst | core/wallet.py:131-134 | The sorted list holds exactly the finalized and the pending entries. |
| Wallet.Firsts | core/wallet.py:139 | Taking the transaction of each entry keeps the length and the order. |
| Wallet.RecentAreNewest | core/wallet.py:125-141 | For `0 <= num <=` the entry count, the answer is `num` bare transactions in newest-first order, none older than an entry left out. |
| Wallet.RecentShapeDepends | core/wallet.py:137-139 | The same one-entry wallet answers `-1` with a pair and `1` with a bare transaction. |
| Wallet.GetRecentFixed | core/wallet.py:125-141 | The corrected answer always holds bare transactions: all of them, newest first, for `-1` or a count above the size, else the first `num`. |
| Wallet.FixedAgreesWithBare | core/wallet.py:137-141 | The corrected answer equals the written one where that returns bare transactions, and is its transactions where it returns pairs. |
| Wallet.Entries | core/wallet.py:86-93 | One `(transaction dict, ISO time)` entry per stored pair, in order. |
| Wallet.DataToDict | core/wallet.py:74-95 | The dict carries the owner's PEM, the balance, one entry per finalized and per pending transaction, and the hash, a falsy one as `None`. |
| Wallet.InitialLatest | core/wallet.py:26 | A truthy latest hash is kept; a missing or empty one becomes the first hash. |
| Wallet.DataFromDict | core/wallet.py:97-123 | The loaded wallet has the PEM key, the stored balance and the latest hash as the constructor sets it. |
| Wallet.KeyNotEarlier | core/wallet.py:107-111 | In a dict with distinct keys no earlier entry has the key of a later one. |
| Wallet.RebuildEntries | core/wallet.py:86-118 | Rebuilding the written entries of a dict with distinct keys gives that dict back, in order. |
| Wallet.RoundTrip | core/wallet.py:74-123 | A wallet with a truthy hash comes back from its dict form with the same finalized and pending books, the same hash and an equal owner key. |
| Wallet.ClearedHashReloadsAsFirst | core/wallet.py:26-120 | A wallet whose hash was cleared by a block without a hash reloads with the first hash. |
| Wallet.Wallet.constructor | core/wallet.py:21-26 | Stores owner and balance, an empty pending pool and the given or an empty dict; the latest hash follows `InitialLatest`. |
| Wallet.Wallet.FromDict | core/wallet.py:97-123 | The wallet built from a dict is the dict's loaded data, pending pool included, and is well formed: no transaction is recorded twice in either dict. |
| Wallet.RebuildDistinct | core/wallet.py:106-117 | Rebuilding a dict by keyed assignment never repeats a key, whatever the stored entries hold. |
| Wallet.Wallet.AddPendingTransaction | core/wallet.py:28-32 | The transaction is pending since the given time; nothing else changes. |
| Wallet.Wallet.FilterAndAddTransaction | core/wallet.py:34-54 | Returns whether the transaction touches the owner; the books change by one step and the hash stays. |
| Wallet.Wallet.FilterAndAddBlock | core/wallet.py:56-72 | Returns true, and changes nothing, exactly for a block off the latest hash; otherwise the hash becomes the block's and every transaction is filtered in order. |
| Wallet.Wallet.GetRecentTransactions | core/wallet.py:125-141 | Pairs come back exactly for `-1` or a count above the size, and then they are all the entries; for `0 <= num <=` the size, `num` bare transactions. |
| CoreBlock.NewBlock | core/block.py:22-43 | Every argument is stored as given, except that a falsy timestamp becomes the current time. |
| CoreBlock.HashIgnoresStoredHash | core/block.py:82-92 | `calculate_hash` reads the contents only, so a stored hash never changes it. |
| CoreBlock.ValidateBlock | core/block.py:94-119 | An empty block raises `IndexError`; otherwise the block is valid exactly when every transaction after the first is positive and signed, and the first one's amount is the sum of their tips. |
| CoreBlock.BadTransactionFails | core/block.py:102-108 | One transaction after the first that is not positive or not signed makes the block invalid. |
| CoreBlock.AddTippingTransaction | core/block.py:121-127 | The result has one transaction more: in front, one from the tipping key to the miner for the sum of the tips, followed by the old list. |
| CoreBlock.TippedBlockValidates | core/block.py:94-127 | A block of positive, signed transactions validates once its tipping transaction is added. |
| CoreBlock.WrongTipTotalFails | core/block.py:111-115 | A first amount that differs from the tip sum makes the block invalid, whatever the signatures say. |
| CoreBlock.MapTx | core/block.py:49-58 | The per-transaction conversion keeps the length and maps each position. |
| CoreBlock.ToDict | core/block.py:46-54 | The dict holds the block's fields and one converted entry per transaction. |
| CoreBlock.FromDict | core/block.py:56-66 | The rebuilt block has one transaction per entry, each rebuilt from its dict. |
| CoreBlock.MapRoundTrip | core/block.py:49-58 | Converting there and back with inverse conversions gives the list back. |
| CoreBlock.RoundTrip | core/block.py:46-66 | A block with a truthy timestamp comes back from its dict unchanged. |
| CoreBlock.FalsyTimestampReplaced | core/block.py:41-63 | A falsy timestamp does not survive the dict round trip: it becomes the current time. |
| CoreChain.GenesisBlock | core/blockchain.py:39-55 | The genesis block follows the first hash, is stamped "time-zero", holds one signed zero transfer from the genesis key to itself, and stores its own hash. |
| CoreChain.CheckFromMeaning | core/blockchain.py:131-151 | The scan from index `i` succeeds exactly when every block from `i` on stores its own hash, points at its predecessor and validates. |
| CoreChain.ChainValidMeaning | core/blockchain.py:124-151 | `is_chain_valid` holds exactly when every block after the genesis block is linked, hashed and valid. |
| CoreChain.AdmittedKeepsValid | core/blockchain.py:67-88 | A block that passes every gate and stores its own hash extends a valid chain to a valid chain. |
| CoreChain.FabricatedHashAdmitted | core/blockchain.py:73-88 | A block with an invented "00" hash passes every gate and is appended to a valid chain, which is then invalid. |
| CoreChain.CheckedAdmissionKeepsValid | core/blockchain.py:67-88 | With the missing own-hash check added, admitting a block never makes a valid chain invalid. |
| CoreChain.FirstWithHash | core/blockchain.py:99-103 | The index found is the first block with that hash; none is found exactly when no block has it. |
| CoreChain.BlocksAfterLatest | core/blockchain.py:90-108 | Asking for the blocks after the latest block, whose hash occurs once, gives exactly the blocks appended since. |
| CoreChain.ChainToDict | core/blockchain.py:28-31 | One block dict per block, in order. |
| CoreChain.ChainFromDict | core/blockchain.py:33-37 | One rebuilt block per stored dict, in order; the fresh genesis block is replaced. |
| CoreChain.ChainRoundTrip | core/blockchain.py:28-37 | A chain whose timestamps are all truthy comes back from its dict block for block. |
| CoreChain.Blockchain.constructor | core/blockchain.py:21-26 | A new chain holds the genesis block alone. |
| CoreChain.Blockchain.FromDict | core/blockchain.py:33-37 | The loaded chain is the stored blocks rebuilt. |
| CoreChain.Blockchain.GetLatestBlock | core/blockchain.py:57-65 | The last block, and an `IndexError` exactly on an empty chain. |
| CoreChain.Blockchain.FilterAndAddBlock | core/blockchain.py:67-88 | True exactly when the block has a hash meeting its difficulty, follows the latest block and validates; the block is appended exactly then. An empty chain or block raises. |
| CoreChain.Blockchain.GetBlocksAfter | core/blockchain.py:90-108 | The blocks after the first one with the given hash, or none if no block has it. |
| CoreChain.Blockchain.CreateSubBlockchain | core/blockchain.py:110-122 | A fresh chain: its own genesis block, then the blocks after the given hash. |
| CoreChain.Blockchain.IsChainValid | core/blockchain.py:124-151 | True exactly when every block after the first is linked, hashed and valid; an empty block raises. |
| SignedBlock.NewBlock | Blockchain/block.py:21-34 | Every argument is stored as given, except that a missing or zero timestamp becomes the current time. |
| SignedBlock.NewBlockDefaults | Blockchain/block.py:21 | With the defaults a block has nonce 0, no hash yet and the current time. |
| SignedBlock.HashIgnoresStoredHash | Blockchain/block.py:70-80 | The stored hash is not hashed, so storing one never changes `calculate_hash`. |
| SignedBlock.HashIgnoresSignatures | Blockchain/block.py:76-79 | Signatures are not part of a transaction's `repr`, so re-signing the transactions leaves the block hash as it was. |
| SignedBlock.KeysHashedByLeadingDigits | Blockchain/transaction.py:63-73 | Only three digits of each key's modulus reach the hash, so transfers from two different keys can hash alike. |
| SignedBlock.VerifySignature | Blockchain/transaction.py:110-132 | A missing or empty signature raises `ValueError`; otherwise the answer is the verification's. |
| SignedBlock.ValidateMeaning | Blockchain/block.py:82-93 | The early-exit scan answers True exactly when every transaction is signed and verifies. It raises `ValueError` exactly when an unsigned transaction comes before any failing one, and answers False exactly when a signed one fails first. |
| SignedBlock.UnsignedRaises | Blockchain/block.py:89-93 | An unsigned transaction reached before any failing one makes `validate_transactions` raise `ValueError` instead of answering. |
| SignedBlock.ToDict | Blockchain/block.py:36-43 | The dict holds the block's fields and one converted entry per transaction. |
| SignedBlock.FromDict | Blockchain/block.py:45-54 | The rebuilt block keeps the previous hash, nonce and hash and has one rebuilt transaction per entry. |
| SignedBlock.RoundTrip | Blockchain/block.py:36-54 | A block with a non-zero timestamp comes back from its dict unchanged. |
| SignedBlock.ZeroTimestampReplaced | Blockchain/block.py:31-51 | A zero timestamp does not survive the dict round trip: it becomes the current time. |
| SignedChain.GenesisBlock | Blockchain/blockchain.py:42-57 | The genesis block is on "0" with nonce 0, holds one signed zero transfer from a fresh genesis key to a network key, and stores its own hash. |
| SignedChain.CheckFromMeaning | Blockchain/blockchain.py:96-116 | The scan from index `i` answers True exactly when every block from `i` on stores its own hash, points at its predecessor and has signatures that verify. |
| SignedChain.CheckFromRaises | Blockchain/blockchain.py:96-116 | The scan raises exactly when some block passes both hash checks and then its signature scan raises, and every block before it is linked. |
| SignedChain.ChainValidMeaning | Blockchain/blockchain.py:89-116 | `is_chain_valid` holds exactly when every block after the genesis block is linked, hashed and signed. |
| SignedChain.Admission | Blockchain/blockchain.py:69-87 | On an empty chain a mined block raises `IndexError` and nothing else does. Every other raise is the `ValueError` of the signature scan. |
| SignedChain.AddedKeepsValid | Blockchain/blockchain.py:69-87 | A block that passes the gates and was hashed on the latest hash keeps a valid chain valid once appended. |
| SignedChain.AddBlockCanBreakChain | Blockchain/blockchain.py:76-84 | Because the previous hash is rewritten after mining, a block mined on another block passes every gate and leaves the chain invalid. |
| SignedChain.CheckedAdmissionKeepsValid | Blockchain/blockchain.py:69-87 | With the missing check that the rewritten block still hashes to its stored hash, `add_block` never makes a valid chain invalid. |
| SignedChain.ChainToDict | Blockchain/blockchain.py:30-34 | The dict carries the difficulty and one block dict per block. |
| SignedChain.ChainFromDict | Blockchain/blockchain.py:36-40 | One rebuilt block per stored dict, in order. |
| SignedChain.ChainRoundTrip | Blockchain/blockchain.py:30-40 | The chain and the difficulty come back from the dict when no timestamp is zero. |
| SignedChain.Blockchain.constructor | Blockchain/blockchain.py:20-28 | A new chain holds the genesis block alone, with the given difficulty. |
| SignedChain.Blockchain.FromDict | Blockchain/blockchain.py:36-40 | The loaded chain has the stored difficulty and the stored blocks rebuilt. |
| SignedChain.Blockchain.AddBlock | Blockchain/blockchain.py:69-87 | True exactly when the block is mined to the difficulty, the chain is not empty and every transaction is signed and verifies; then the caller's block points at the latest block and is the one appended. A mined block raises `IndexError` on an empty chain. It raises `ValueError` when an unsigned transaction comes first among the failing ones, and then its previous hash is already rewritten and nothing is appended. |
| SignedChain.Blockchain.IsChainValid | Blockchain/blockchain.py:89-116 | True exactly when every block after the first is linked, hashed and signed. It raises `ValueError`, never answering, exactly when the first block that is not linked passes both hash checks and holds an unsigned transaction before any failing one. |
| MinedBlock.Block.CalculateHash | Blockchain/Block.py:13-18 | The hash depends on the previous hash, the transactions, the timestamp and the current nonce, not on the stored hash. |
| MinedBlock.Block.constructor | Blockchain/Block.py:6-11 | A new block keeps its previous hash and transactions, takes the current time for a missing or zero timestamp, starts at nonce 0 and stores its own hash. |
| MinedBlock.Block.MineBlock | Blockchain/Block.py:20-28 | As written: a stored hash that already meets the difficulty is kept with the nonce unchanged, even when it is stale; otherwise the nonce rises to the first later one whose hash meets the difficulty, and that hash is stored. |
| MinedBlock.Block.MineBlockFixed | Blockchain/Block.py:20-28 | With the hash recomputed before the first test, the block ends with its own hash, the first from the current nonce on that meets the difficulty. |
| MinedChain.Blockchain.constructor | Blockchain/Blockchain.py:5-13 | A new chain holds one fresh genesis block on "0" with the "Genesis Block" transaction, nonce 0 and its own hash. |
| MinedChain.Blockchain.GetLatestBlock | Blockchain/Blockchain.py:15-19 | The last block of the chain. |
| MinedChain.Blockchain.IsChainValid | Blockchain/Blockchain.py:29-45 | True exactly when every block after the first stores its own hash and points at its predecessor's hash. |
| MinedChain.Blockchain.AddBlock | Blockchain/Blockchain.py:21-27 | The block is re-pointed at the latest hash, mined as written and appended; it keeps a stale stored hash that already meets the difficulty. |
| MinedChain.Blockchain.AddBlockFixed | Blockchain/Blockchain.py:21-27 | With the corrected mining the appended block holds its own hash, so a valid chain stays valid. |
| MinedChain.StaleHashScenario | Blockchain/Blockchain.py:21-27 | A concrete run: the new block's constructor hash meets the difficulty, mining keeps it after the re-pointing, and the chain is invalid. |
| MinedChain.FixedScenario | Blockchain/Blockchain.py:21-27 | The same run with the corrected mining mines the block at nonce 1 and leaves the chain valid. |
| Wire.Socket.constructor | communication/protocol.py:34 | A socket holds the bytes the peer has sent and not yet read. |
| Wire.Socket.Recv1 | communication/protocol.py:59 | `recv(1)` takes the next byte, or gives `b""` and nothing changes once the stream is empty. |
| Wire.LengthField | communication/protocol.py:37-43 | A length read to its ':' consumes at least that byte and is ASCII without ':'. |
| Wire.ReadLengthField | communication/protocol.py:37-43 | The byte-by-byte loop reads exactly the length field, fails on a non-ASCII byte and waits for ever without ':'; on success the rest stays in the socket. |
| Wire.Section | communication/protocol.py:70-75 | A section is the next `k` bytes as characters, or fewer when the stream ends first; the rest follows it. |
| Wire.GetMsgSection | communication/protocol.py:70-75 | The `k` one-byte reads give the section, and what follows stays in the socket. |
| Wire.Payload | communication/protocol.py:57-62 | A payload is exactly `n` bytes from the front of the stream (none for `n <= 0`), and never raises. |
| Wire.ReadPayload | communication/protocol.py:57-62 | The one-byte reads give the payload, and what follows stays in the socket. |
| Wire.ReceiveSocketFrame | communication/protocol.py:34-62 | The reads of `receive_socket_message` in the source's order: length, type, subtype, then the payload unless the length is 0. |
| Wire.LengthFieldOf | communication/protocol.py:37-43 | A length field a sender wrote, followed by ':', reads back as written, with the rest left over. |
| Wire.SectionOf | communication/protocol.py:70-75 | A section of exactly `k` ASCII characters reads back as written. |
| Wire.FrameRoundTrip | communication/protocol.py:34-62 | A frame with 4-character ASCII type and subtype and a non-empty payload, or none, reads back as written, and the bytes after it are left for the next read. |
| CommProtocol.ConstructMessage | communication/protocol.py:132-157 | Without parameters the frame is "0:" with type and subtype; with them, their byte count, ':', type, subtype and the pickled bytes. |
| CommProtocol.Dispatch | communication/protocol.py:78-110 | A request keeps the list as unpickled, a block is converted by `Block.from_dict`, and the only failure is the `AttributeError` of a missing subtype name. |
| CommProtocol.DecryptMsgParams | communication/protocol.py:78-112 | The parameters keep the payload and carry the dispatch's conversion; they fail exactly when the dispatch does. |
| CommProtocol.ReceiveSocketMessage | communication/protocol.py:34-67 | The reads and the conversion of `receive_socket_message` in the source's order, leaving the bytes after the message in the socket. |
| CommProtocol.RoundTrip | communication/protocol.py:34-161 | A constructed message with a 4-character ASCII type and subtype reads back with them and its payload, or raises the dispatch's `AttributeError`, and stops where the next message starts. |
| CommProtocol.SendOtherSubtypeLost | communication/protocol.py:86-100 | With the shipped subtype names, a "send" message whose subtype is not block, transaction or blockchain, "test" and "peer" included, raises and is lost. |
| CommProtocol.DefinedNamesDeliver | communication/protocol.py:86-112 | With `NODE_ADDRESS` and `NODE_INIT` defined, every "send" message with a payload is received, and a "test" object comes back as sent. |
| CoreProtocol.ConstructMessage | core_communication/protocol.py:118-148 | A request is always "0:" with type and subtype, its parameters ignored; any other message without a parameter raises `IndexError`; otherwise the byte count, ':', type, subtype and the pickled bytes. |
| CoreProtocol.Dispatch | core_communication/protocol.py:70-95 | The conversion depends on the subtype alone; a block uses `Block.from_dict`, and the only failure is the `AttributeError` of a missing `NODE_ADDRESS`. |
| CoreProtocol.ReceiveSocketMessage | core_communication/protocol.py:31-59 | The reads and the conversion of `receive_socket_message` in the source's order, leaving the bytes after the message in the socket. |
| CoreProtocol.RoundTrip | core_communication/protocol.py:31-148 | Whatever `construct_message` builds reads back: a request without parameters, any other message with its payload or with the dispatch's exception. |
| CoreProtocol.SendOtherSubtypeRaises | core_communication/protocol.py:76-86 | With the shipped subtype names, receiving a "send" message raises `AttributeError` unless its subtype is block, transaction or blockchain. |
| CoreProtocol.DefinedNamesDeliver | core_communication/protocol.py:70-98 | With `NODE_ADDRESS` defined, every constructed message is received, and a "test" object comes back as sent. |
| FramedProtocol.BigEndianRoundTrip | Protocol/protocol.py:85-138 | Unpacking the packed big-endian bytes gives the number back whenever it fits the width. |
| FramedProtocol.PackLength | Protocol/protocol.py:137-138 | `struct.pack('!I', n)` succeeds exactly for `n < 2 ** 32`, with four bytes that unpack to `n`; otherwise it raises `struct.error`. |
| FramedProtocol.PaddedType | Protocol/protocol.py:130-133 | A type that fits is its UTF-8 bytes padded with NULs to four bytes. |
| FramedProtocol.ConstructMessage | Protocol/protocol.py:113-145 | As written: a frame is built exactly when the payload is shorter than `2 ** 32` bytes and the type fits four bytes, and is the length, the padded type and the payload; a longer payload or type raises `ValueError`. |
| FramedProtocol.MaximalPayloadEscapes | Protocol/protocol.py:126-138 | A payload of exactly `2 ** 32` bytes passes the `>` test and then raises `struct.error` in the packing. |
| FramedProtocol.ConstructMessageFixed | Protocol/protocol.py:126-128 | With `>=` every failure is `ValueError`, the same payloads succeed, and the result equals the written one at every other length. |
| FramedProtocol.ReadExactly | Protocol/protocol.py:76-103 | Reading `n` bytes succeeds exactly when that many have arrived and returns them from the front; otherwise it raises `ConnectionError`, and it never waits for ever. |
| FramedProtocol.RecvExactly | Protocol/protocol.py:76-103 | The loop of one-byte reads does what `ReadExactly` says and leaves the rest in the socket. |
| FramedProtocol.ReceiveEncryptedMessage | Protocol/protocol.py:68-110 | The length field, the type field and then exactly that many parameter bytes, in the source's order, leaving the rest in the socket. |
| FramedProtocol.RoundTrip | Protocol/protocol.py:68-145 | A frame that was built and arrives whole reads back as the padded type and the payload, and no more. |
| FramedProtocol.FixedRoundTrip | Protocol/protocol.py:68-145 | With the corrected bound a frame is built for every payload whose length fits, and it reads back. |
| FramedProtocol.EncryptionRoundTrip | Protocol/protocol.py:50-65 | The placeholder encryption and decryption are inverse: decrypting an encrypted message gives it back. |
| PeerProtocol.EncodeProtocol | Peer/protocol.py:56-64 | The encoding is a non-empty length prefix followed by exactly the body `type:p1:p2...`. |
| PeerProtocol.Text | Peer/protocol.py:43-46 | Reading `n` characters gives exactly `n` ASCII characters when it succeeds; a non-ASCII byte raises and a closed stream waits for ever. |
| PeerProtocol.ReadRawMessage | Peer/protocol.py:31-48 | The two loops of `get_raw_message`, a non-numeric length raising `ValueError`, leaving the bytes after the message in the socket. |
| PeerProtocol.DecodeProtocol | Peer/protocol.py:67-77 | The type followed by the parameters is exactly the ':'-split of the message. |
| PeerProtocol.TextOf | Peer/protocol.py:43-46 | ASCII characters that were sent read back as sent, with the rest left over. |
| PeerProtocol.ReadEncoded | Peer/protocol.py:31-64 | An encoded ASCII message is read back whole as its body, and the bytes after it stay unread. |
| PeerProtocol.RoundTrip | Peer/protocol.py:31-77 | A type and at least one parameter, all ASCII and free of ':', come back from encode, read and decode as sent. |
| PeerProtocol.NoParamsDecodeToEmpty | Peer/protocol.py:58-75 | Without parameters the body ends in ':', so the receiver sees one empty parameter. |
| PeerProtocol.DividerInParameterSplits | Peer/protocol.py:58-75 | A ':' inside a parameter splits it: "a:b" arrives as two parameters "a" and "b". |
| RangeMining.FirstHitMeaning | network/miner/multiprocess_mining.py:37-48 | The search ends at the first nonce whose hash meets the difficulty, or where the event is first seen set, or after the range; every nonce before that end was unstopped and missed. |
| RangeMining.FirstHitIsLeast | network/miner/multiprocess_mining.py:37-48 | If some nonce qualifies and the event stays clear up to it, the search finds a nonce no later than that one. |
| RangeMining.BestZerosBound | network/miner/multiprocess_mining.py:50-54 | The best trailing-zero count up to a nonce is at least that of every hash sampled before it. |
| RangeMining.BestZerosAttained | network/miner/multiprocess_mining.py:50-54 | The best count is 0 or the count of one of the sampled hashes. |
| RangeMining.BestZerosMonotone | network/miner/multiprocess_mining.py:52-54 | The best count never decreases as the search goes on. |
| RangeMining.StopEvent.constructor | network/miner/multiprocess_mining.py:16 | A new event is clear. |
| RangeMining.ResultQueue.constructor | network/miner/multiprocess_mining.py:69 | A new queue is empty. |
| RangeMining.ResultQueue.Put | network/miner/multiprocess_mining.py:46 | `put` appends one item. |
| RangeMining.SearchRange | network/miner/multiprocess_mining.py:30-54 | The loop of `_mine_range` ends where `FirstHit` says; its best count is the best over the nonces that missed, and the best hash has that many trailing zeros. |
| RangeMining.MineRange | network/miner/multiprocess_mining.py:19-60 | On a hit the mined block is queued once and the event set; otherwise the queue and the event are unchanged. |
| RangeMining.SetEventStopsAtOnce | network/miner/multiprocess_mining.py:38-39 | An event already set stops the search before the first nonce. |
| RangeMining.Ranges | network/miner/multiprocess_mining.py:76-78 | Range `i` is `[i * width, (i + 1) * width)`. |
| RangeMining.NonceRanges | network/miner/multiprocess_mining.py:75-78 | No processes raise `ZeroDivisionError`, a negative count starts none, and otherwise each process gets `2**32 // processes` nonces. |
| RangeMining.PartitionNonces | network/miner/multiprocess_mining.py:74-78 | The loop hands out exactly the ranges `NonceRanges` describes. |
| RangeMining.RangesPartition | network/miner/multiprocess_mining.py:76-78 | The ranges start at 0, each ends where the next begins, and no two overlap. |
| RangeMining.RangeOfNonce | network/miner/multiprocess_mining.py:76-78 | Each covered nonce lies in range `k / width` and in no other. |
| RangeMining.NonceRangesInSpace | network/miner/multiprocess_mining.py:75-78 | The ranges stay below `2**32` and leave out fewer than `processes` of the highest nonces. |
| MiningWorker.WorkerQueue.constructor | Miner/mining_process.py:72 | A new queue is empty. |
| MiningWorker.WorkerQueue.Put | Miner/mining_process.py:43 | `put` appends one `(hash, nonce)` pair. |
| MiningWorker.SearchWorker | Miner/mining_process.py:27-56 | The loop ends where `FirstHit` says over the given nonce hashes; its best count is the best over the sampled nonces that missed, and the best hash has that many trailing zeros. |
| MiningWorker.MineWorker | Miner/mining_process.py:13-59 | The search runs over the hashes of the block string with the decimal nonce appended, sampling every 100000 nonces; a hit's hash is that hash; on a hit `(hash, nonce)` is queued once and the event set, otherwise the queue and the event are unchanged. |
| MiningWorker.HitHashesBlockString | Miner/mining_process.py:38-42 | A hit lies in the range, is the SHA-256 of the block data followed by the decimal nonce, and meets the difficulty. |
| MiningWorker.StartMiningRanges | Miner/mining_process.py:74-78 | Worker `i` of 10 gets `[i * 10000, (i + 1) * 10000)`. |
| MiningWorker.WorkerRangesCover | Miner/mining_process.py:74-78 | The workers' ranges start at 0, end at 100000, and put every nonce below that in exactly one range. |
| PyText.PyTake | core/blockchain.py:74 | Python's `s[:n]`, negative `n` counting from the end and out-of-range `n` clamped. |
| PyText.PyDrop | core/light_blockchain.py:85 | Python's `s[n:]`, negative `n` counting from the end and out-of-range `n` clamped. |
| PyText.MeetsDifficultyMeaning | core/blockchain.py:74 | `h[:d] == "0" * d` holds exactly when `h` has at least `d` characters and the first `d` are all '0'. |
| PyText.TrailingZeros | network/miner/multiprocess_mining.py:51 | `len(h) - len(h.rstrip("0"))` counts exactly the '0's at the end of the hash. |
| PyText.NatToDecimalDigits | communication/protocol.py:151 | `str(n)` of a natural number is a non-empty string of digits whose value is `n`. |
| PyText.PyIntOfDecimal | communication/protocol.py:45 | `int(str(n))` gives `n` back. |
| PyText.Utf8Ascii | communication/protocol.py:141-142 | An ASCII string encodes to one byte per character, each byte its code. |
| PyText.SplitJoin | Peer/protocol.py:58-69 | Splitting a ':'-join gives the pieces back when no piece holds ':'. |

Some functions are reference definitions: they model a piece of source
behaviour, and the members in the table above are stated against them. They
have no row of their own; each is pinned down by the members named here.

- `Wallet.GetRecent` (core/wallet.py:125-141): `Wallet.Wallet.GetRecentTransactions`, `Wallet.RecentShapeDepends` and `Wallet.FixedAgreesWithBare`.
- `LightChain.Recent` (core/light_blockchain.py:81-85): `LightChain.RecentIsSuffix`, `LightChain.RecentEdgeCases` and `LightChain.LightBlockchain.GetRecentTransactions`.
- `CoreChain.Admission` (core/blockchain.py:67-88): `CoreChain.AdmittedKeepsValid`, `CoreChain.FabricatedHashAdmitted` and `CoreChain.Blockchain.FilterAndAddBlock`.
- `CoreBlock.Validity` (core/block.py:94-119): `CoreBlock.ValidateBlock`, `CoreBlock.TippedBlockValidates`, `CoreBlock.WrongTipTotalFails` and `CoreBlock.BadTransactionFails`.
- `LegacyLightChain.Step` (one transaction of Blockchain/light_blockchain.py:8-18): `LegacyLightChain.StrangersCreditOwner`, `LegacyLightChain.PaymentToOwnerRefused`, `LegacyLightChain.NoneListRaisesAfterCharging` and `LegacyLightChain.StopsAfterRaise`.
- `PyText.IntToDecimal` and `PyText.PyInt` (Python's `str(i)` and `int(s)`): `PyText.NatToDecimalDigits` and `PyText.PyIntOfDecimal`.
- `PyText.Utf8` (`str.encode()`): `PyText.Utf8Ascii`.
- `PyText.Split` and `PyText.Join` (`str.split` and `str.join` on one character): `PyText.SplitJoin`.

## Left out

- Logging, `print` output, locks, threads and processes are not modelled. Each operation is one sequential step.
- Hashing (SHA-256), RSA signing and verification, PEM key loading, pickling, JSON and ISO dates are not computed. They are function parameters, so every result holds for any hash or signature scheme.
- Clocks, `setTimeout` and `setInterval` timers, `Math.random()` and `random` draws are parameters or explicit steps (`FireTimeout`, `Tick`). The value of `SlotMiningModal.MiningDuration` is bounded but does not order the timers.
- `async`/`await`, the fetch calls and the sleep delays of the frontends and servers are not modelled. A fetched snapshot is an argument.
- Floating-point numbers are Dafny reals, so no rounding is modelled.
- ProgressMiningModal.ProgressModal.SetOpen: requires that the parent does not close the dialog while mining is in progress, which the component itself does not check.
- ClientTx.MergeIdempotent: requires the snapshot's ids to be distinct. With a repeated id, `find` returns the first match and a second merge can change the list.
- MinedBlock.Block.MineBlock: requires that some nonce meets the difficulty. Without one, the source loops forever.
- MinedBlock.Block.MineBlockFixed: requires that some nonce meets the difficulty, for the same reason.
- MinedChain.Blockchain.AddBlock: requires a non-empty chain and a qualifying nonce. The constructor always creates the genesis block, and without a qualifying nonce the mining never returns.
- MinedChain.Blockchain.AddBlockFixed: requires a non-empty chain and a qualifying nonce, as `AddBlock` does.
- `Blockchain/Blockchain.py` `create_genesis_block` is folded into the `MinedChain.Blockchain` constructor.
- `Blockchain/Blockchain.py` transactions are plain strings, so `MinedBlock` serializes them as strings.
- `UserManager`: `initialize_users` and `create_user_instance` load keys from files, so they are not modelled. The database is the `users` field, and whether an insert or update succeeds is a parameter.
- UserManager.UserManager.LogoutUser: the logout reply is modelled as a session body with an empty token.
- Ending an active session at logout: `logout_user` (backend/users_server/user_manager.py:186-194) only updates the users table and never calls `UserSessionManager`, so `handle_transactions` (lines 40-41) keeps serving that session id from the active sessions until the sweep removes it. The model keeps this behaviour; `LogoutUser`'s contract states that the active sessions are unchanged.
- `TransactionSettings.ID_LENGTH` does not exist in `utils/config.py`, so, as written, every `TransactionWrapper(...)` raises `AttributeError` at network/miner/transaction_wrapper.py:19. The length is a parameter of `MinerTransactionWrapper`, which models the code as evidently intended.
- `bytes.fromhex` accepting whitespace is not modelled. A signature is hex digits or nothing.
- Sorting.SortDesc: the contract states a permutation that descends by key, not the stability of Python's `sorted` and JavaScript's `Array.sort`, so the order among equal keys is not stated.
- `PyText.PyInt` does not accept the surrounding whitespace or `_` separators that Python's `int` allows.
- `Wire.Outcome.Spins` stands for a read loop that never ends once the peer has closed.
- Unpickling errors and `from_dict` errors on malformed records are not modelled. The pickled parameter list is kept as an uninterpreted value that reads back as sent.
- `Protocol/protocol.py` `receive_message` evaluates the undefined name `match` only when the first unpickled parameter is a dict (lines 40-41); it then raises `NameError`, which the `except` at line 44 does not name. With no parameters, `msg_object[0]` raises `IndexError` at line 40. Otherwise it returns the type and the parameters; the module's own sender passes a non-dict first item. The model covers the framing (`ReceiveEncryptedMessage`) and the decryption (`DecryptObject`), not the rest of that function.
- `Protocol/protocol.py` `send_message` is construction, encryption and `sendall` in a row, so the model covers it through `ConstructMessage` and `EncryptObject`.
- `Peer/protocol.py` `send_message` sends what `encrypt_message` returns, which is `None`, and `receive_message` discards the message it read. The model covers the framing functions only.
- `communication/protocol.py` `receive_socket_message` catches every exception and returns `None`. The model keeps the exception as `Raised` so that the cause stays visible.
- The stop event set by other worker processes is the `stopped` parameter of the nonce searches. Waiting on the result queue, `join` and `clear` are concurrency and are not modelled.
- The `try`/`except` of `mine_worker`, `terminate_processes`, and the "Block mined!" message are not modelled.
- The exception handler of `select_transactions` in `network/miner/mempool.py` is not modelled. With numeric tips, the sorting and slicing inside it cannot raise.
- `NodeMempool` holds a Python set, whose iteration order is arbitrary. The model's pool is a Dafny `set`, and a listing of it is any sequence that holds each member once.
- `from_dict` reads the clock once per record, so `now` is one parameter per call.
- `SignedBlock` serializes a transaction as a view record, and a named key's serialized form is `None`.
- CoreBlock.AddTippingTransaction: modelled on values. It returns the new block instead of inserting into the list in place, so aliasing of the transaction list is not captured.
- `Miner/multiprocess_mining.py` imports `BlockSettings` from `dini_settings.py`, which has no `PROCESSES_NUMBER` (that constant is in `MinerSettings`). So that copy raises `AttributeError` when its class is defined and cannot be imported as written. Apart from that and its logging it matches `network/miner/multiprocess_mining.py`, and `RangeMining` models the search both copies share.
- Wallet.Wallet.FilterAndAddTransaction: transactions are keyed by value. The Python `Transaction` class that `core/wallet.py` uses (core/transaction.py is not part of this model) may hash and compare by object identity, and then two equal but distinct transaction objects are two keys.
- Wallet.StepEffect: states the recorded and pending entries under value equality of transactions, for the same reason.
- NodeMempool.Mempool.AddTransactions: the pool is a set of transaction values. If Python compares the transaction objects by identity, an equal copy of a pooled transaction is added a second time.
- NodeMempool.Mempool.RemoveTransactions: removal is by value. If Python compares by identity, only the pooled object itself is removed, not an equal copy.
- `HasTransaction` is modelled as a predicate without a contract of its own. Its uses carry the properties.

## Findings

| source | as written | input that shows it | evidently intended | confidence | as-written member | corrected member |
|---|---|---|---|---|---|---|
| frontend/components/mining-modal.tsx:27-46 | The effect depends on `slots`, so each spin re-runs it and schedules another completion timeout that nothing cancels | One click on start, one spin, then the timeouts fire: `onMiningComplete` is called twice | One completion per start | not executed | SlotMiningModal.OneSpinCompletesTwice | SlotMiningModal.SpinsCompleteOnce |
| core/blockchain.py:73-88 | `filter_and_add_block` checks the difficulty of the stored hash but never recomputes it | A block whose stored hash is an invented "00" string is appended, and `is_chain_valid` then fails | The stored hash must equal the recomputed hash | not executed | CoreChain.FabricatedHashAdmitted | CoreChain.CheckedAdmissionKeepsValid |
| core/wallet.py:137-141 | `-1` and counts above the size return (transaction, timestamp) pairs, other counts return bare transactions | A wallet with one entry: `-1` gives a pair and `1` gives a bare transaction | One shape for every count | not executed | Wallet.RecentShapeDepends | Wallet.GetRecentFixed |
| Blockchain/light_blockchain.py:12 | The irrelevance test uses `is not` on keys, which compares identity, not value | A transfer between two other keys credits the owner: 100 becomes 140 | Only transactions that involve the owner count | not executed | LegacyLightChain.StrangersCreditOwner | LegacyLightChain.FixedIgnoresStrangers |
| Blockchain/blockchain.py:76-84 | `add_block` rewrites `previous_hash` after the block was mined, without checking the hash again | A block mined on another block passes every test and leaves the chain invalid | The admitted block still hashes to its stored hash | not executed | SignedChain.AddBlockCanBreakChain | SignedChain.CheckedAdmissionKeepsValid |
| Blockchain/Block.py:20-28 | `mine_block` tests the hash computed by the constructor before it is recomputed for the new `previous_hash` | A new block whose constructor hash already meets the difficulty keeps that stale hash, and the chain is invalid | The hash is recomputed before the first test | not executed | MinedChain.StaleHashScenario | MinedChain.FixedScenario |
| communication/protocol.py:96-100 | `NODE_ADDRESS` and `NODE_INIT` are not defined in the settings | A "send" message with subtype "test" or "peer" raises and is lost | Every listed subtype is delivered | not executed | CommProtocol.SendOtherSubtypeLost | CommProtocol.DefinedNamesDeliver |
| core_communication/protocol.py:86 | `NODE_ADDRESS` is not defined in the settings | Receiving a "send" message with subtype "test" raises `AttributeError` | Every listed subtype is delivered | not executed | CoreProtocol.SendOtherSubtypeRaises | CoreProtocol.DefinedNamesDeliver |
| Protocol/protocol.py:127 | The size test is `> 2 ** 32`, but a 4-byte length holds at most `2 ** 32 - 1` | A payload of exactly `2 ** 32` bytes passes the test and the packing raises `struct.error` | The test is `>= 2 ** 32` | not executed | FramedProtocol.MaximalPayloadEscapes | FramedProtocol.FixedRoundTrip |
