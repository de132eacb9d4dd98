# Dustin Scan explorer front end — a Dafny model

Dustin Scan is a block explorer web front end. It reads blocks, transactions,
accounts, token balances and contracts from a backend API and keeps an
"offline first" cache: every successful read is stored, and when the backend
fails the last stored copy is shown instead. This project models the core of
that front end and proves properties of the model.

- **Cache** (`cache.dfy`). The cache's physical keys and the `CacheKeys`
  builders. A class `CacheStore` holds the slots of either the server-side
  map or the browser's `localStorage`. Browser writes may fail and stored
  text may not parse. Its set/get/timestamp/remove/clear methods are proved
  against pure functions on the slot map.
- **Read wrappers** (`api.dfy`). The eleven cached reads share one rule:
  read the cache, make one live attempt, then store or fall back. It is a
  method over the store, proved against a pure `ReadRule`. Lemmas cover the
  run of many reads (the cache always holds the last good answer) and key
  isolation between endpoints. The uncached write calls are modelled too:
  their error messages and the `data.data || data` unwrap.
- **DataLoader** (`data_loader.dfy`). The fetch effect as a class whose two
  steps are proved against pure state functions. The effect stops updating
  once unmounted.
- **Pagination, search bars, event logs, contract tabs and parameters**
  (`pagination.dfy`, `universal_search.dfy`, `search_bar.dfy`,
  `transaction_logs.dfy`, `contract_interaction.dfy`). These cover:
  - the page window and `buildHref`;
  - input classification and search routing;
  - hex-to-decimal display;
  - the ABI's read/write tabs and how parameters are normalised.
- **Deployment dialog, contract helpers, staking and the validator list**
  (`deploy_modal.dfy`, `contract_helpers.dfy`, `staking.dfy`,
  `validators.dfy`). These cover:
  - bytecode validation;
  - case-insensitive address de-duplication and fallback contract records;
  - the address and key checks, the withdrawal-cooldown record and the
    order of the submit checks;
  - the status badge, the status-rank sort and the sort header clicks.
- **Time labels and cards** (`time_ago.dfy`, `cards.dfy`). The cache
  indicator's age label and the cards' "… ago" labels. The transaction card's
  label mixes units: see Findings.

Shared helpers:
- `text.dfy`: JavaScript `trim`, ASCII `toLowerCase`, `startsWith`,
  `includes` and `slice`.
- `decimal.dfy`: decimal and hex digit strings.
- `entries.dfy`: an ordered record with distinct keys. It stands for a
  JavaScript object or a `URLSearchParams`.
- `optional.dfy`: `Option`.

Several things are passed in as parameters:
- network outcomes, the clock (`now`) and whether storage accepts writes;
- in the staking checks, the results of float parsing.

Where the code and the project's documents differ, the model follows the
code:
- The read wrappers return only the data. They return no flag saying that
  the data came from the cache.
- A cached wrapper's fallback therefore reaches `DataLoader` as a success.
  Its cache marker ends up off (`DataLoader.WrapperFallbackLooksLive`).
- The write calls never touch the cache.

## Model

| member | source | states |
|---|---|---|
| Cache.PhysicalKey | lib/cache.ts:26-28 | The stored key is `dustin_cache_1.0_` followed by the logical key, and the logical key is recovered from it |
| Cache.PhysicalKeyInjective | lib/cache.ts:12-28 | Distinct logical keys never share a stored key |
| Cache.PutThenLookup | lib/cache.ts:35-53 | After a set that reaches the store, a get returns the data just set, stamped with the time of the set |
| Cache.PutOverwrites | lib/cache.ts:35-43 | A second set on a key replaces the whole entry |
| Cache.PutLeavesOthers | lib/cache.ts:41-52 | A set changes no other key's entry |
| Cache.FailedWriteChangesNothing | lib/cache.ts:46-51 | A browser write that fails leaves the store as it was |
| Cache.UnreadableIsAbsent | lib/cache.ts:69-78 | An entry whose stored text does not parse reads as no entry |
| Cache.RemovedIsExact | lib/cache.ts:96-110 | Removing a key makes it read as absent and changes no other key |
| Cache.ClearedKeepsForeign | lib/cache.ts:115-132 | Clearing the browser store leaves no key starting with `dustin_cache_` (any version, readable or not), so every cache lookup misses, and keeps every other key with its value |
| Cache.CacheStore.OnServer | lib/cache.ts:21 | The server store starts empty |
| Cache.CacheStore.InBrowser | lib/cache.ts:60-80 | The browser store starts with whatever storage already holds |
| Cache.CacheStore.Set | lib/cache.ts:35-53 | The new slots are the `Put` of the old ones |
| Cache.CacheStore.Get | lib/cache.ts:60-80 | The result is the `Lookup` of the key |
| Cache.CacheStore.GetTimestamp | lib/cache.ts:86-91 | On the server the result is always none; in the browser it is the time of the entry found |
| Cache.CacheStore.Remove | lib/cache.ts:96-110 | The new slots are the `Removed` of the old ones |
| Cache.CacheStore.Clear | lib/cache.ts:115-132 | The loop over the stored keys yields the `Cleared` slots; on the server every slot goes |
| Cache.BlocksKeyInjective | lib/cache.ts:138 | Distinct (page, limit) pairs give distinct block-list keys |
| Cache.TransactionsKeyInjective | lib/cache.ts:141 | Distinct (page, limit) pairs give distinct transaction-list keys |
| Cache.ContractsKeyInjective | lib/cache.ts:148 | Distinct (page, limit) pairs give distinct contract-list keys |
| Cache.TransactionsByAddressKeyInjective | lib/cache.ts:143-144 | Distinct (address, page, limit) give distinct keys, for every address (page and limit text never contains `_`) |
| Cache.TokenBalancesKeyInjective | lib/cache.ts:146-147 | Distinct (address, page, limit) give distinct keys, for every address (page and limit text never contains `_`) |
| Cache.ContractsByDeployerKeyInjective | lib/cache.ts:150-151 | Distinct (address, page, limit) give distinct keys, for every address (page and limit text never contains `_`) |
| Api.ReadRule | lib/api.ts:18-60 | An ok response is returned. Otherwise the cached data is returned. With nothing cached the read throws: the endpoint's message on a non-ok response, the network error otherwise |
| Api.FetchWithFallback | lib/api.ts:18-60 | The read, step by step, returns `ReadRule` of the entry found first, and leaves the store as `Refreshed`: only an ok body is written |
| Api.Read | lib/api.ts:18-436 | Each endpoint is that rule under its own cache key and failure message |
| Api.DefaultArguments | lib/api.ts:18-404 | For every address, each list read called without page and limit reads the key of page 1 and limit 20 (blocks, transactions, transactions by address, contracts, contracts by deployer), and token balances that of page 1 and limit 10 |
| Api.FallbackIsLastKnownGood | lib/api.ts:22-59 | After any run of reads of one key, the cache holds the body and time of the latest stored success, else what it held before |
| Api.StaleAfterSuccess | lib/api.ts:25-43 | A failing read after a stored success returns that success's body and leaves it in place |
| Api.CacheKeyInjective | lib/cache.ts:137-152 | Two reads share a cache key only when they are the same request, whatever the addresses |
| Api.ReadIsolation | lib/api.ts:22-59 | A read never changes another request's cached entry |
| Api.ErrorFrom | lib/api.ts:470-475 | The error is the server's truthy `message` when there is one, else the fixed fallback. A `null` error body is a property access on null |
| Api.Unwrap | lib/api.ts:593 | `data.data \|\| data` yields the envelope's truthy `data` or else the body itself, and throws on `null` |
| Api.UncachedCall | lib/api.ts:440-764 | A network failure propagates unchanged. A non-ok response always throws an error of the call's own (a message error or a null access), never the network one. An ok response whose body does not parse propagates. The contract and wallet calls return the whole body, and the other calls return the body's `data` when it is truthy, else the whole body |
| Api.ServerMessageWins | lib/api.ts:472-474 | A non-ok object body with a truthy `message` raises exactly that message |
| Api.FallbackWhenNoMessage | lib/api.ts:582-590 | Without a usable server message, or for the calls that never read the error body, the fixed message is raised |
| Api.EnvelopeUnwraps | lib/api.ts:629 | An envelope with a truthy `data` unwraps to it |
| Api.FalsyDataKeepsEnvelope | lib/api.ts:629 | A falsy `data` (0, "", false, null) leaves the whole envelope as the result |
| DataLoader.RunSettles | components/DataLoader.tsx:25-55 | Loading always ends, and a live result replaces whatever the cache showed |
| DataLoader.FromCacheIffFallback | components/DataLoader.tsx:27-54 | The cache marker is on exactly when the live call failed and a cache read found an entry, whose data is then shown |
| DataLoader.EmptyIffNothingAnywhere | components/DataLoader.tsx:27-54 | Nothing is shown exactly when the call failed and neither cache read found anything |
| DataLoader.WrapperFallbackLooksLive | components/DataLoader.tsx:37-43 | With a cached read wrapper as the loader, a failed attempt still ends with the cached data and the cache marker off |
| DataLoader.Loader.constructor | components/DataLoader.tsx:18-23 | Starts with no data, loading, not from cache, and mounted |
| DataLoader.Loader.ShowCachedStep | components/DataLoader.tsx:27-34 | While mounted, the state becomes `ShowCached` of the cache read; once unmounted, nothing changes |
| DataLoader.Loader.SettleStep | components/DataLoader.tsx:37-54 | While mounted, the state becomes `Settled` with the live result or the second cache read; once unmounted, nothing changes |
| DataLoader.Loader.Unmount | components/DataLoader.tsx:59-61 | Later steps no longer change the state |
| Pagination.Range | components/Pagination.tsx:25-27 | The loop's pages are `lo, lo+1, …, hi`, and none when `hi < lo` |
| Pagination.WindowShape | components/Pagination.tsx:16-23 | The window lies inside `1..totalPages`, holds min(total, 5) pages, and contains the current page whenever that page exists |
| Pagination.PageWindow | components/Pagination.tsx:16-27 | The window bounds and the pushed pages match `WindowBounds` and `Range` |
| Pagination.OneHighlighted | components/Pagination.tsx:58-66 | At most one page of the window is highlighted, and it is the current page |
| Pagination.PrevNextLinks | components/Pagination.tsx:48-79 | For a current page that exists, the previous link shows iff the page before is a real page and the next link iff the page after is. Both are hidden iff there is one page, and each link's page is among the numbered pages shown |
| Pagination.SetEachValues | components/Pagination.tsx:32-37 | Setting each defined entry in turn leaves distinct keys, each holding its last defined value; undefined entries are skipped |
| Pagination.BuildHref | components/Pagination.tsx:29-43 | The link is the base path, the defined parameters in order, then `page` set to the requested page |
| Pagination.HrefQuery | components/Pagination.tsx:29-43 | Every link carries `page` as the requested page's decimal text, and every other defined parameter's last value |
| UniversalSearch.HexPrefixNotDigits | components/UniversalSearchBar.tsx:24-30 | Text starting with `0x` is never taken as a block number |
| UniversalSearch.DetectKinds | components/UniversalSearchBar.tsx:15-54 | A block number is exactly all digits, an address exactly `0x` and 40 hex digits, a hash `0x` and 64 hex digits. A blank input clears the hint, and a short hex prefix asks to keep typing. Each kind is paired with its own hint |
| UniversalSearch.DetectOnTrimmed | components/UniversalSearchBar.tsx:62-67 | Classifying the trimmed input is classifying the input |
| UniversalSearch.LowerKeepsKind | components/UniversalSearchBar.tsx:68-69 | Lower-casing an address or hash keeps it an address or hash and already trimmed |
| UniversalSearch.ProbedFacts | components/UniversalSearchBar.tsx:85-107 | The first path is always probed. Its page is reached iff it answers ok; otherwise the second path is probed, and its page or not-found follows |
| UniversalSearch.RouteFacts | components/UniversalSearchBar.tsx:64-138 | Unclassified input goes to not-found with no probe. A block number goes to its block page with no probe. Addresses try contract then account, hashes try block then transaction, all lower-cased |
| UniversalSearch.ProbeInTurn | components/UniversalSearchBar.tsx:85-134 | The two sequential lookups compute `Probed` |
| UniversalSearch.Dispatch | components/UniversalSearchBar.tsx:79-138 | A classified input is routed as `RouteFor` says: a block number without a probe, an address or hash through its two lookups in turn |
| UniversalSearch.SearchBox.constructor | components/UniversalSearchBar.tsx:7-9 | Empty text, no hint, not searching |
| UniversalSearch.SearchBox.InputChange | components/UniversalSearchBar.tsx:56-60 | The text is stored and its hint is the classifier's |
| UniversalSearch.SearchBox.HandleSearch | components/UniversalSearchBar.tsx:62-145 | Blank input or a search in flight does nothing. Otherwise it navigates and probes as `Route` of the trimmed text, and ends not searching |
| SearchBar.NavigatesIff | components/SearchBar.tsx:16-49 | Blank input never navigates. A block search navigates iff the `0x` prefix matches the selector. A transaction search always navigates. A contract search navigates iff the input starts with `0x`. A rejected block search reports a hash given for a number exactly when the selector is on number, and a number given for a hash otherwise. A navigation goes to the list's detail page for the trimmed text |
| TransactionLogs.FormatValueMeaning | components/TransactionLogs.tsx:115-129 | Hex mode shows the raw value. Decimal mode shows the canonical base-10 digits of a hex word, nothing for an empty one, and the raw text for non-hex |
| TransactionLogs.PrefixInsensitive | components/TransactionLogs.tsx:120 | `ff` and `0xff` render alike |
| TransactionLogs.DistinctValuesDistinctText | components/TransactionLogs.tsx:123-125 | Two hex words render to the same decimal text only when their values are equal |
| ContractInteraction.TabsPartition | components/ContractInteraction.tsx:35-46 | Both tabs list only functions: reads are exactly the view/pure functions, writes the nonpayable/payable ones, and none is in both |
| ContractInteraction.TabsCount | components/ContractInteraction.tsx:40-46 | The two tabs together hold at most the ABI's functions |
| ContractInteraction.ParamsArray | components/ContractInteraction.tsx:138-160 | One value per input, in input order, each the normalised text of that input's box (empty when untouched) |
| ContractInteraction.NormalizeIdempotent | components/ContractInteraction.tsx:138-160 | Normalising a normalised value changes nothing |
| ContractInteraction.NormalizeBlank | components/ContractInteraction.tsx:143-153 | A blank box sends `0` for integer types, `false` for bool, and empty text otherwise |
| ContractInteraction.NormalizeAddress | components/ContractInteraction.tsx:155-157 | A filled address box sends its trimmed, lower-cased text |
| ContractInteraction.NormalizeOther | components/ContractInteraction.tsx:159 | Any other filled box sends its trimmed text |
| ContractInteraction.DefaultSuitsWidget | components/ContractInteraction.tsx:184-189 | A blank box's default suits its widget: 0 for a number box, false for a checkbox |
| DeployModal.CheckBytecodeMeaning | components/DeployContractModal.tsx:29-45 | Accepted iff the trimmed text is `0x` and any number of hex digits; a bare `0x` passes. The accepted value is the trimmed text. Blank input is reported first, and the hex error only for `0x` text |
| DeployModal.DeployForm.constructor | components/DeployContractModal.tsx:16-22 | Empty bytecode, no error, no result, not deploying |
| DeployModal.DeployForm.HandleDeploy | components/DeployContractModal.tsx:24-57 | Clears the old error and result. A failed check shows its error and sends nothing. Otherwise it sends the trimmed bytecode and shows the response's `data`, or the error of a failed call, or the error of reading `data` from a null response, and ends not deploying |
| DeployModal.DeployForm.HandleClose | components/DeployContractModal.tsx:59-64 | Bytecode, error and result are all cleared |
| ContractHelpers.DedupeWellFormed | lib/contractHelpers.ts:5-13 | Each pair is keyed by its address lower-cased, keys never repeat, and each kept address comes from the input |
| ContractHelpers.DedupeCovers | lib/contractHelpers.ts:8-13 | Every input address is represented by its lower-cased key |
| ContractHelpers.DedupeKeepsFirst | lib/contractHelpers.ts:8-13 | The spelling kept for a key is the first one in the input with that key |
| ContractHelpers.UniquePairs | lib/contractHelpers.ts:5-13 | The loop with its `seen` set computes `Dedupe` |
| ContractHelpers.MapOf | lib/contractHelpers.ts:27 | The map's keys are exactly the pairs' keys |
| ContractHelpers.MapOfValues | lib/contractHelpers.ts:27 | With distinct keys each key holds the detail of its own address |
| ContractHelpers.ContractDetailMapMeaning | lib/contractHelpers.ts:4-28 | One key per case-insensitive address. Each key holds what the lookup of the first spelling gave: its `data`, or null when the lookup threw |
| ContractHelpers.FallbackContractMeaning | lib/contractHelpers.ts:30-52 | Identity fields are copied. The deployer and block hash are copied when present and defaulted only when falsy. Status is 0 iff the summary says 0, else 1. Detail fields are null, and `createdAt` is the timestamp |
| Staking.FormatChecksMeaning | app/staking/page.tsx:32-38 | An address is exactly `0x` and 40 hex digits, a key `0x` and 64; nothing is both; the zero address is well-formed |
| Staking.LastFreshMeaning | app/staking/page.tsx:80-85 | The time kept for an address is that of a fresh entry with the address after which no fresh entry has it, and there is none iff no fresh entry has it |
| Staking.CleanFromValues | app/staking/page.tsx:80-85 | Each address keeps the time of its last fresh entry; a later spelling of the same address wins |
| Staking.CleanFromFacts | app/staking/page.tsx:80-85 | Cleaning yields distinct lower-case keys, every entry younger than five minutes, a key for every fresh entry, and under each key the time of the last fresh entry for that address |
| Staking.CleanFromCleaned | app/staking/page.tsx:80-85 | Cleaning an already cleaned record returns it unchanged |
| Staking.ReadMeaning | app/staking/page.tsx:72-94 | The requests read are cleaned, and keyed by exactly the fresh addresses, each holding its last fresh entry's time, whenever storage accepts the rewrite or none is needed. Storage is rewritten only when it is writable and cleaning dropped or merged entries, and then holds exactly the requests read |
| Staking.DistinctKeysCount | app/staking/page.tsx:87 | For a parsed record, whose keys are distinct, the entry count compared is the count of `Object.keys` |
| Staking.WritesWellFormed | app/staking/page.tsx:87-102 | Both writes to the slot, the write-back of a read and the record after a request, leave an object without repeated keys |
| Staking.ReadStable | app/staking/page.tsx:72-94 | A second read at the same instant returns the same requests and writes nothing |
| Staking.RemainingMeaning | app/staking/page.tsx:120-132 | Remaining time is never negative and is 0 with no record. It is the least whole number of seconds covering the rest of the cooldown, positive exactly while the cooldown is active, and at most 180 unless the clock went back |
| Staking.WithdrawalStore.constructor | app/staking/page.tsx:19 | The slot holds what storage holds |
| Staking.WithdrawalStore.GetRequests | app/staking/page.tsx:72-94 | The cleaning loop returns `Requests` and leaves the slot as `Rewritten` |
| Staking.WithdrawalStore.AddRequest | app/staking/page.tsx:96-105 | Writable storage ends holding the read requests with `now` set under the lower-cased address; otherwise nothing changes |
| Staking.WithdrawalStore.CooldownActive | app/staking/page.tsx:107-118 | True iff a non-zero request time for the address is under three minutes old |
| Staking.WithdrawalStore.RemainingCooldown | app/staking/page.tsx:120-132 | Returns `RemainingSeconds` of the read requests |
| Staking.AddThenCoolingDown | app/staking/page.tsx:96-118 | Right after recording a request, the cooldown is active for that address in any letter case, with 180 seconds left |
| Staking.SubmitCheckOrder | app/staking/page.tsx:212-235 | The checks run in order: validator looked up for the same address, fields filled, address valid, key valid. Each is reported only when the earlier ones pass, and nothing is submitted unless all do |
| Staking.SubmitGuards | app/staking/page.tsx:244-341 | A deposit is never sent to a full validator set or an exited validator. A withdrawal is never sent without a non-zero withdrawal address or during cooldown, whose message splits the seconds into minutes and seconds |
| Staking.WithdrawalCooldown | app/staking/page.tsx:325-326 | The check reports the remaining seconds exactly when the cooldown is active, and they are then positive; storage ends as one read leaves it |
| Staking.RecordWithdrawal | app/staking/page.tsx:334-339 | A withdrawal request is recorded only when the response has a hash, and then in writable storage as the read requests with `now` under the lower-cased address. Storage that refuses writes is left unchanged |
| Validators.StatusBadgeMeaning | app/staking/validators/page.tsx:31-54 | Green iff the status mentions `active_ongoing`; yellow iff not that but `pending`; gray otherwise. The raw text shows only when no marker matches |
| Validators.ActiveOngoingBadge | app/staking/validators/page.tsx:32-37 | `active_ongoing` gets the green active badge |
| Validators.PendingBadge | app/staking/validators/page.tsx:38-43 | Both pending statuses get the yellow waiting badge |
| Validators.ActiveExitingBadge | app/staking/validators/page.tsx:50-53 | `active_exiting` matches no marker and shows its raw text |
| Validators.ExitedBadge | app/staking/validators/page.tsx:44-49 | Both exited statuses get the gray inactive badge |
| Validators.StatusRankMeaning | app/staking/validators/page.tsx:94-103 | The six statuses rank 1 to 6 in lifecycle order. Anything else ranks 999, and only unknown statuses share a rank |
| Validators.InsertBy | app/staking/validators/page.tsx:79 | The result holds the old validators plus the inserted one, and nothing else |
| Validators.SortPermutes | app/staking/validators/page.tsx:79 | The sorted list has the same validators as the copied one, whatever the key |
| Validators.SortOrders | app/staking/validators/page.tsx:109-113 | The sorted list is in non-decreasing key order |
| Validators.SortKeepsKeyOrder | app/staking/validators/page.tsx:79-114 | Validators with equal keys keep their relative order |
| Validators.SortByStatusMeaning | app/staking/validators/page.tsx:79-114 | A permutation, ranks ascending for `asc` and descending for `desc`, stable among equal ranks |
| Validators.SortControl.constructor | app/staking/validators/page.tsx:60-61 | Sorting starts by staked amount, descending |
| Validators.SortControl.HandleSort | app/staking/validators/page.tsx:116-123 | The clicked column becomes current. The current column flips direction, and a new one starts descending |
| Validators.Clicked | app/staking/validators/page.tsx:116-123 | The same transition as a value |
| Validators.ClickTwice | app/staking/validators/page.tsx:116-123 | Two clicks on the current column restore the direction; two on a new column sort it ascending |
| TimeAgo.NestedFloor | components/CacheIndicator.tsx:16-18 | Flooring minutes to hours and hours to days equals flooring the age directly |
| TimeAgo.CacheAgeMeaning | components/CacheIndicator.tsx:15-29 | The label uses the largest whole unit the age reaches, with the age floored to it. Under a minute, negative ages included, it reads "just now" |
| TimeAgo.CacheIndicatorShown | components/CacheIndicator.tsx:11-13 | The indicator shows exactly for a non-zero timestamp |
| TimeAgo.CardTimeAgoMeaning | components/ContractCard.tsx:76-89 | For a timestamp in seconds: seconds below a minute, whole minutes below an hour, whole hours below a day, whole days beyond. BlockCard.tsx:50-63 is the same function |
| TimeAgo.AgoTextInjective | components/ContractCard.tsx:85-88 | Different labels never render alike |
| TimeAgo.TxTimeAgoAsWrittenNeverCountsSmallUnits | components/TransactionCard.tsx:72-77 | As written, the seconds and minutes buckets only ever show zero or less |
| TimeAgo.TxTimeAgoCounterexample | components/TransactionCard.tsx:72-77 | A transaction 30 s old reads "471750 hours ago" as written and "30 secs ago" corrected |
| TimeAgo.TxTimeAgoMeaning | components/TransactionCard.tsx:72-77 | The corrected label agrees with the other cards below a day, and beyond it counts whole hours |
| Cards.OutcomeLabelMeaning | components/ContractCard.tsx:24-33 | The label shows iff the status is defined, and it is green with the success text iff the status is 1 |
| Cards.TruncatedMeaning | components/ContractCard.tsx:46 | A shortened text is the first n characters, or all of a shorter text, then `...` |
| Cards.ContractCardMeaning | components/ContractCard.tsx:10-74 | The card links to the contract, reads "Deployed" iff status 1, and shows the address and deployer cut to 12 characters |
| Cards.BlockCardMeaning | components/BlockCard.tsx:10-48 | The card links to `/blocks/{number}` and shows the proposer cut to 12 characters, linking to the full address |
| Cards.TransactionCardMeaning | components/TransactionCard.tsx:10-70 | The card links to the transaction, shows the hash cut to 20 characters, and reads "Success" iff status 1. The card built here carries the corrected age label `TxTimeAgo`, not the one the program shows (see Findings) |

## Left out

- Network I/O, the Next.js router and the route proxy. Responses and
  lookups are parameters, and navigation is a returned value.
- Rendering and styling beyond the labels and links modelled.
- JSON parsing and serialisation. Stored text is either an entry (`Stored`)
  or unreadable (`Unreadable`, `Corrupt`).
- URL percent-encoding. Query strings are ordered key/value lists.
- Unicode case mapping. Lower-casing is ASCII only. It is also applied to
  arbitrary typed text: the contract interaction's address boxes, the
  staking page's user address (compared before it is validated) and the
  withdrawal record's keys. Non-ASCII letters there keep their case here,
  while JavaScript's `toLowerCase` would lower them.
- `BigInt`'s tolerance of surrounding whitespace. Hex digits are
  `[0-9a-fA-F]` only.
- Regular expressions. Each pattern is an explicit character predicate.
- `Promise.all` concurrency. Lookups run in order. Likewise, reads of one
  key never interleave, so the re-read of the cache after a non-ok
  response in each read endpoint always finds what the first lookup found.
- Float arithmetic: `weiToDstn`, `parseFloat` amount and balance checks,
  and the staked-amount and rewards sort keys. The staking checks take the
  float results as parameters, and only the status column is sorted.
- Timers (`setInterval`), locale date formatting and `formatTimestamp`.
- `handleLoadValidator` on the staking page. It is a lookup and not part of
  the submit checks.
- The stablecoin page. Its operation rules rest on float conversions.
- Staking.WithdrawalStore: the server-rendering guard
  (`typeof window === "undefined"`) is not modelled. The page runs in the
  browser.
- DeployModal.DeployForm.HandleDeploy: the runtime's own error texts for a
  network failure or a null response are placeholders.
- ContractHelpers.ContractDetailMap: `lookup` stands for `getContract`,
  whose own cache reads and writes are not modelled here. Each lookup's
  outcome is a parameter.
- Cards.ContractCardMeaning: the card title fallback
  (`name || "Contract"`) is not stated.
- Validators.SortByStatusMeaning: status names that are members of a plain
  JavaScript object (such as `toString`) are ranked 999 here. The source
  would produce `NaN` for them.
- TimeAgo.CardTimeAgoMeaning: timestamps that do not parse as numbers
  (`NaN`) are not modelled. Timestamps are integers.

## Findings

| source | as written | input that shows it | evidently intended | confidence | as-written member | corrected member |
|---|---|---|---|---|---|---|
| components/TransactionCard.tsx:72-77 | The age is `now − timestamp`, with `now` in milliseconds and the transaction timestamp in seconds (app/transactions/[hash]/page.tsx:130 multiplies it by 1000). The thresholds are in seconds, the divisors in milliseconds, and there is no days bucket | now = 1700000030000, timestamp = 1700000000 (30 s old): "471750 hours ago". Even a millisecond timestamp 30 s old gives "0 hours ago" | Convert the timestamp to milliseconds and bucket whole seconds, minutes and hours consistently, as the other cards do | high, not executed | TimeAgo.TxTimeAgoAsWritten (see TimeAgo.TxTimeAgoCounterexample, TimeAgo.TxTimeAgoAsWrittenNeverCountsSmallUnits) | TimeAgo.TxTimeAgo (see TimeAgo.TxTimeAgoMeaning) |
