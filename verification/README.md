# Point-in-time balance replay for EOS and Bitshares accounts

This project models the two account-model balance providers of the blockchain balances report:
the EOS provider and the Bitshares provider. Each takes an address and a cutoff instant `at`.
Each returns the account's balance per asset as of `at`, reconstructed by replaying the account's
history as fetched from a public explorer. The explorer calls are not modelled. Their answers are
inputs, given as finite sequences of already-typed responses.

- `results.dfy` (module `Results`): `Option` for nullable fields and `Result` for failures.
- `balances.dfy` (module `Balances`): `Asset`, `BalanceMap` and `ReplayError`, the three ways a
  call ends without balances:
  - a trace status the replay does not handle;
  - a genesis correction asked for an address it was never checked on;
  - the supplied pages ending before the paging loop would stop.
- `text.dfy` (module `Text`): the case-insensitive comparison of EOS account names.
- `retry.dfy` (module `Retry`): one decision of the retry policy wrapped around every EOS explorer
  call. A fault is always retried. A response is retried when the caller's predicate rejects it.
  The wait before retry `i` is `min(i, 5)` seconds. `TotalBackoff` and its lemmas are derived
  facts about that wait; the code never adds its waits up.
- `eos.dfy` (module `Eos`): the EOS provider as written.
  - `WalkPages` is the numbered-page loop.
  - `ReplayPage` is the per-trace loop.
  - `ApplyGenesis` is the genesis correction.
  - `ToAssets` / `BalancesKey` re-key the balances by asset.
  - `GetBalances` is the whole call.
- `eos_proofs.dfy` (module `EosProofs`): a closed-form reference for the EOS provider, plus lemmas
  proving that the engine computes exactly that reference.
  - `StopIndex` is the first page at which the loop stops.
  - `TracesRead` is every trace the loop reads.
  - `FirstUnsupported` is the first trace that is not executed.
  - `Totals` is the per-key sum of signed quantities of eligible traces.
- `bitshares.dfy` (module `Bitshares`): the Bitshares provider as written.
  - `CollectHistory` is the empty-page-terminated loop.
  - `Eligible` is the cutoff and amount filter.
  - `OrderByTimestampDescending` is a stable insertion sort.
  - `GetAssetInfo` is the memo cache over the predefined table and the metadata endpoint.
  - `BalanceChange` does the scaling, the BTS floor and the direction.
  - `Replay` is the fold, and `GetBalances` is the whole call.
- `bitshares_proofs.dfy` (module `BitsharesProofs`): a closed-form reference for the Bitshares
  provider (`FirstEmpty`, `Concat`, `AssetSum`, `Totals`, `CacheAfter`), plus lemmas connecting it
  to the engine. They cover the cache, order independence and the whole-number BTS balance.

EOS pages are numbered from 1, and the model's page index 0 is the explorer's page number 1. The
EOS loop stops once the traces read reach the trace count the server declares for the page; an
empty page does not stop it. The Bitshares loop stops at the first empty batch. Each loop runs over a finite sequence
of pages. When the pages run out before the loop's stop condition, the result is
`Failure(OutOfPages)`. Neither loop in the code is guaranteed to terminate, and the model does not
claim that either one does.

## Model

| member | source | states |
|---|---|---|
| Eos.ApplyGenesis | src/Lykke.Job.BlockchainBalancesReport/Blockchains/Eos/EosBalanceProvider.cs:141-163 | a non-null genesis status leaves the balances unchanged; a null status fails with UnverifiedGenesis for every address except "hezdemrzhege"; for that address the native key becomes its previous balance (or 0) plus BalanceTotal minus 10, is created if absent, and every other key is unchanged |
| Eos.BalancesKey | src/Lykke.Job.BlockchainBalancesReport/Blockchains/Eos/EosBalanceProvider.cs:168-173 | the asset is named by the symbol and identified by the contract code; it carries the platform id "782e7e92-…" exactly when the code is "eosio.token" |
| Eos.ToAssets | src/Lykke.Job.BlockchainBalancesReport/Blockchains/Eos/EosBalanceProvider.cs:165 | every (code, symbol) balance is reported under its asset unchanged, no other asset appears, and no balance is lost (same number of entries) |
| Eos.TokenCodes | src/Lykke.Job.BlockchainBalancesReport/Blockchains/Eos/EosBalanceProvider.cs:76 | the allow-list is exactly the set of codes in the token list |
| Eos.GetBalances | src/Lykke.Job.BlockchainBalancesReport/Blockchains/Eos/EosBalanceProvider.cs:35-166 | no contract of its own; specified by `EosProofs.WalkPagesMatchesSpec`, `EosProofs.UnsupportedStatusFailsCall`, `EosProofs.ReplayedBalancesReported`, `EosProofs.GenesisCorrectionApplied` and `EosProofs.GenesisGuardRejects` |
| Eos.WalkPages | src/Lykke.Job.BlockchainBalancesReport/Blockchains/Eos/EosBalanceProvider.cs:78-139 | no contract of its own; specified by `EosProofs.WalkPagesMatchesSpec` and `EosProofs.LaterPagesIgnored` |
| Eos.ReplayPage | src/Lykke.Job.BlockchainBalancesReport/Blockchains/Eos/EosBalanceProvider.cs:98-130 | no contract of its own; specified by `EosProofs.ReplayPageSpec` |
| Eos.Step | src/Lykke.Job.BlockchainBalancesReport/Blockchains/Eos/EosBalanceProvider.cs:107-129 | no contract of its own; specified by `EosProofs.StepIsAccumulated` |
| Eos.SignedQuantity | src/Lykke.Job.BlockchainBalancesReport/Blockchains/Eos/EosBalanceProvider.cs:117-120 | no contract of its own; specified by `EosProofs.DirectionFollowsReceiver` and `EosProofs.CapitalisedReceiverIncoming` |
| Eos.Eligible | src/Lykke.Job.BlockchainBalancesReport/Blockchains/Eos/EosBalanceProvider.cs:107-115 | no contract of its own; specified by `EosProofs.CutoffInclusive` and `EosProofs.IneligibleTraceIgnored` |
| Eos.GenesisRejected | src/Lykke.Job.BlockchainBalancesReport/Blockchains/Eos/EosBalanceProvider.cs:47-55 | no contract of its own; specified by `EosProofs.GenesisPolicyDelivers` |
| Eos.ParkRejected | src/Lykke.Job.BlockchainBalancesReport/Blockchains/Eos/EosBalanceProvider.cs:65-73 | no contract of its own; specified by `EosProofs.ParkPolicyDelivers` (the same predicate guards the trace pages at lines 86-94) |
| EosProofs.StopIndex | src/Lykke.Job.BlockchainBalancesReport/Blockchains/Eos/EosBalanceProvider.cs:132-137 | the loop's stop page is the first page at which the cumulative number of traces read, filtered ones included, reaches that page's TraceCount; None means no supplied page satisfies it |
| EosProofs.ReplayPageSpec | src/Lykke.Job.BlockchainBalancesReport/Blockchains/Eos/EosBalanceProvider.cs:98-130 | reading one page fails with the status of its first non-executed trace, and otherwise adds every eligible trace's signed quantity to its key |
| EosProofs.WalkPagesMatchesSpec | src/Lykke.Job.BlockchainBalancesReport/Blockchains/Eos/EosBalanceProvider.cs:78-139 | the paging loop returns the first unsupported status among all traces read up to the stop page, else OutOfPages if no page stops it, else the per-key totals of the traces read |
| EosProofs.LaterPagesIgnored | src/Lykke.Job.BlockchainBalancesReport/Blockchains/Eos/EosBalanceProvider.cs:132-135 | pages after the stop page are never read: appending any pages leaves the outcome unchanged |
| EosProofs.FirstUnsupportedSpec | src/Lykke.Job.BlockchainBalancesReport/Blockchains/Eos/EosBalanceProvider.cs:102-105 | the reported status belongs to the first trace that is not "executed"; none is reported iff every trace is executed |
| EosProofs.UnsupportedStatusFailsCall | src/Lykke.Job.BlockchainBalancesReport/Blockchains/Eos/EosBalanceProvider.cs:102-105 | any non-executed trace among those read fails the whole call with the first such status, for every cutoff, allow-list and genesis answer, so no partial map is returned |
| EosProofs.OutOfPagesWhenNoStop | src/Lykke.Job.BlockchainBalancesReport/Blockchains/Eos/EosBalanceProvider.cs:132-139 | supplied pages that never reach the declared count, with all traces executed, end the call with OutOfPages |
| EosProofs.ReplayedBalancesReported | src/Lykke.Job.BlockchainBalancesReport/Blockchains/Eos/EosBalanceProvider.cs:107-129 | with all traces read executed, a stop page reached and a non-null genesis status, the call returns the per-key totals of the traces read, re-keyed by asset |
| EosProofs.GenesisCorrectionApplied | src/Lykke.Job.BlockchainBalancesReport/Blockchains/Eos/EosBalanceProvider.cs:143-162 | for "hezdemrzhege" with a null genesis status, the call returns the replay totals with BalanceTotal − 10 added to ("eosio.token", "EOS") |
| EosProofs.GenesisGuardRejects | src/Lykke.Job.BlockchainBalancesReport/Blockchains/Eos/EosBalanceProvider.cs:147-153 | for any other address with a null genesis status, the call fails with UnverifiedGenesis once the replay itself succeeds |
| EosProofs.TotalsPerKey | src/Lykke.Job.BlockchainBalancesReport/Blockchains/Eos/EosBalanceProvider.cs:122-129 | a key is present iff some eligible trace carries it, and its balance is the sum of those traces' signed quantities |
| EosProofs.StepIsAccumulated | src/Lykke.Job.BlockchainBalancesReport/Blockchains/Eos/EosBalanceProvider.cs:107-129 | the per-trace update equals accumulating that one trace into the running balances |
| EosProofs.IneligibleTraceIgnored | src/Lykke.Job.BlockchainBalancesReport/Blockchains/Eos/EosBalanceProvider.cs:107-115 | a trace after `at` or with a code outside the allow-list leaves the totals unchanged wherever it sits |
| EosProofs.CutoffInclusive | src/Lykke.Job.BlockchainBalancesReport/Blockchains/Eos/EosBalanceProvider.cs:107-110 | an allowed trace stamped exactly `at` contributes its signed quantity, and one stamped `at + 1` contributes nothing |
| EosProofs.DirectionFollowsReceiver | src/Lykke.Job.BlockchainBalancesReport/Blockchains/Eos/EosBalanceProvider.cs:117-120 | an eligible trace adds its quantity iff the receiver equals the address ignoring case, and subtracts it otherwise, whoever the sender is |
| EosProofs.CapitalisedReceiverIncoming | src/Lykke.Job.BlockchainBalancesReport/Blockchains/Eos/EosBalanceProvider.cs:118 | a receiver that is the address written in capitals still counts as incoming |
| EosProofs.GenesisPolicyDelivers | src/Lykke.Job.BlockchainBalancesReport/Blockchains/Eos/EosBalanceProvider.cs:47-56 | a genesis response is delivered iff its status is null or its message is "Not a genesis account"; a delivered non-null status leaves the balances unchanged |
| EosProofs.ParkPolicyDelivers | src/Lykke.Job.BlockchainBalancesReport/Blockchains/Eos/EosBalanceProvider.cs:59-95 | token-list and trace-page responses are delivered iff ErrNo is 0; a fault is retried after BackoffSeconds(attempt) |
| Eos.BalancesKeyInjective | src/Lykke.Job.BlockchainBalancesReport/Blockchains/Eos/EosBalanceProvider.cs:165-173 | distinct (code, symbol) keys map to distinct assets under structural equality |
| Text.Lower | src/Lykke.Job.BlockchainBalancesReport/Blockchains/Eos/EosBalanceProvider.cs:118 | folding keeps the length and lower-cases each ASCII capital in place |
| Text.EqualsIgnoreCase | src/Lykke.Job.BlockchainBalancesReport/Blockchains/Eos/EosBalanceProvider.cs:118 | no contract of its own; specified by `Text.EqualsIgnoreCaseCharwise` and `Text.UpperSpellingMatches` |
| Text.EqualsIgnoreCaseCharwise | src/Lykke.Job.BlockchainBalancesReport/Blockchains/Eos/EosBalanceProvider.cs:118 | two names are equal ignoring case iff they have the same length and agree character by character after folding |
| Text.UpperSpellingMatches | src/Lykke.Job.BlockchainBalancesReport/Blockchains/Eos/EosBalanceProvider.cs:118 | a name and its capitalised spelling are equal ignoring case, in either order |
| Retry.BackoffSeconds | src/Lykke.Job.BlockchainBalancesReport/Blockchains/Eos/EosBalanceProvider.cs:56 | the wait before retry i is never above 5 seconds or above i, equals i up to 5, and is 5 from then on |
| Retry.Decide | src/Lykke.Job.BlockchainBalancesReport/Blockchains/Eos/EosBalanceProvider.cs:41-57 | an attempt is delivered iff it returned a response the predicate accepts, and then the response itself; otherwise the policy waits BackoffSeconds(attempt) |
| Retry.BackoffMonotone | src/Lykke.Job.BlockchainBalancesReport/Blockchains/Eos/EosBalanceProvider.cs:74 | the wait never decreases as the attempt number grows |
| Retry.TotalBackoffClosedForm | src/Lykke.Job.BlockchainBalancesReport/Blockchains/Eos/EosBalanceProvider.cs:95 | the total wait over n retries is n(n+1)/2 up to n = 5 and 15 + 5(n − 5) after; a derived fact about the wait function, since the code never adds its waits up |
| Retry.TotalBackoffBounded | src/Lykke.Job.BlockchainBalancesReport/Blockchains/Eos/EosBalanceProvider.cs:56 | the total wait over n retries lies between n and 5n seconds; a derived fact, not something the code computes |
| Bitshares.GetBalances | Lykke.Tools.BlockchainBalancesReport/Blockchains/Bitshares/BitsharesBalanceProvider.cs:40-98 | no contract of its own; specified by `BitsharesProofs.GetBalancesSpec` |
| Bitshares.CollectHistory | Lykke.Tools.BlockchainBalancesReport/Blockchains/Bitshares/BitsharesBalanceProvider.cs:44-63 | no contract of its own; specified by `BitsharesProofs.CollectHistorySpec` and `BitsharesProofs.LaterPagesIgnored` |
| Bitshares.Step | Lykke.Tools.BlockchainBalancesReport/Blockchains/Bitshares/BitsharesBalanceProvider.cs:70-95 | no contract of its own; specified by `BitsharesProofs.ReplayMatchesAccumulated` |
| Bitshares.Replay | Lykke.Tools.BlockchainBalancesReport/Blockchains/Bitshares/BitsharesBalanceProvider.cs:66-96 | no contract of its own; specified by `BitsharesProofs.ReplayMatchesAccumulated` and `BitsharesProofs.ReplayOrderIndependent` |
| Bitshares.BalanceChange | Lykke.Tools.BlockchainBalancesReport/Blockchains/Bitshares/BitsharesBalanceProvider.cs:75-92 | no contract of its own; specified by `BitsharesProofs.ReceivedAddsSentSubtracts`, `BitsharesProofs.IncomingOutgoingOpposite`, `BitsharesProofs.CapitalisedRecipientOutgoing`, `BitsharesProofs.BtsChangeFloorBound`, `BitsharesProofs.OtherAssetUnrounded` and `BitsharesProofs.BtsFloorsBeforeSign` |
| Bitshares.Kept | Lykke.Tools.BlockchainBalancesReport/Blockchains/Bitshares/BitsharesBalanceProvider.cs:67 | no contract of its own; specified by `BitsharesProofs.EligibleSingle` and `BitsharesProofs.DroppedEntryIgnored` |
| Bitshares.Denominator | Lykke.Tools.BlockchainBalancesReport/Blockchains/Bitshares/BitsharesBalanceProvider.cs:75 | the divisor is positive; its value is fixed by `BitsharesProofs.DenominatorIsPowerOfTen` |
| Bitshares.Aligned | Lykke.Tools.BlockchainBalancesReport/Blockchains/Bitshares/BitsharesBalanceProvider.cs:75 | no contract of its own; specified by `BitsharesProofs.AlignedRescale` and `BitsharesProofs.DenominatorIsPowerOfTen` |
| Bitshares.GetAssetInfo | Lykke.Tools.BlockchainBalancesReport/Blockchains/Bitshares/BitsharesBalanceProvider.cs:101-128 | a cached id returns its cached pair without a fetch; on a miss "1.3.0" resolves to Asset("BTS", "1.3.0", "20ce0468-…") with precision 5 and no fetch; any other id is fetched and becomes Asset(symbol, id, null) with the fetched precision; the answer is always stored under the id and nothing else in the cache changes |
| Bitshares.Eligible | Lykke.Tools.BlockchainBalancesReport/Blockchains/Bitshares/BitsharesBalanceProvider.cs:66-67 | every entry stamped at or before `at` that carries an amount yields a transfer and nothing else does, and there are never more transfers than entries; order and repetitions are fixed by `BitsharesProofs.EligibleSingle` with `BitsharesProofs.KeptEntryInPlace` |
| Bitshares.OrderByTimestampDescending | Lykke.Tools.BlockchainBalancesReport/Blockchains/Bitshares/BitsharesBalanceProvider.cs:68 | the result is sorted latest first and is a permutation of the input |
| Bitshares.Insert | Lykke.Tools.BlockchainBalancesReport/Blockchains/Bitshares/BitsharesBalanceProvider.cs:68 | inserting into a latest-first sequence keeps it latest first and adds exactly the one element |
| BitsharesProofs.FirstEmpty | Lykke.Tools.BlockchainBalancesReport/Blockchains/Bitshares/BitsharesBalanceProvider.cs:62 | the first empty batch, with no empty batch before it; None means every supplied batch is non-empty |
| BitsharesProofs.CollectHistorySpec | Lykke.Tools.BlockchainBalancesReport/Blockchains/Bitshares/BitsharesBalanceProvider.cs:44-63 | pages 0, 1, 2, … are read until the first empty batch; the history is the concatenation of the batches before it, in page order; without an empty batch the call runs out of pages |
| BitsharesProofs.LaterPagesIgnored | Lykke.Tools.BlockchainBalancesReport/Blockchains/Bitshares/BitsharesBalanceProvider.cs:48-63 | pages after the first empty batch are never read: appending any pages leaves the history unchanged |
| BitsharesProofs.DroppedEntryIgnored | Lykke.Tools.BlockchainBalancesReport/Blockchains/Bitshares/BitsharesBalanceProvider.cs:66-67 | an entry after `at`, or with a null amount, is dropped wherever it sits in the history |
| BitsharesProofs.EligibleSingle | Lykke.Tools.BlockchainBalancesReport/Blockchains/Bitshares/BitsharesBalanceProvider.cs:66-67 | one entry yields exactly its transfer when it is kept and nothing otherwise; together with appending, this determines the filter on every history |
| BitsharesProofs.KeptEntryInPlace | Lykke.Tools.BlockchainBalancesReport/Blockchains/Bitshares/BitsharesBalanceProvider.cs:66-67 | a kept entry yields its transfer in its place, between the transfers of the entries before and after it |
| BitsharesProofs.RepeatedEntryCountsTwice | Lykke.Tools.BlockchainBalancesReport/Blockchains/Bitshares/BitsharesBalanceProvider.cs:66-96 | an entry that occurs twice yields its transfer twice, so identical transfers are each summed |
| BitsharesProofs.CutoffInclusive | Lykke.Tools.BlockchainBalancesReport/Blockchains/Bitshares/BitsharesBalanceProvider.cs:67 | an amount-carrying entry stamped exactly `at` is kept and one stamped `at + 1` is not |
| BitsharesProofs.ResolveTwice | Lykke.Tools.BlockchainBalancesReport/Blockchains/Bitshares/BitsharesBalanceProvider.cs:103-106 | resolving the same id again issues no fetch, returns the identical pair and leaves the cache unchanged |
| BitsharesProofs.ResolutionStable | Lykke.Tools.BlockchainBalancesReport/Blockchains/Bitshares/BitsharesBalanceProvider.cs:126 | storing a resolution changes the answer for no id |
| BitsharesProofs.WellFormedResolution | Lykke.Tools.BlockchainBalancesReport/Blockchains/Bitshares/BitsharesBalanceProvider.cs:109-123 | a cache whose entries describe their own id stays so after a lookup; such a cache resolves an id to an asset with that id, and an uncached "1.3.0" to BTS with precision 5 |
| BitsharesProofs.ReplayMatchesAccumulated | Lykke.Tools.BlockchainBalancesReport/Blockchains/Bitshares/BitsharesBalanceProvider.cs:66-96 | the fold adds each asset's net change to the running balances and leaves the cache holding every asset the transfers mention, resolved as before |
| BitsharesProofs.ReplayOrderIndependent | Lykke.Tools.BlockchainBalancesReport/Blockchains/Bitshares/BitsharesBalanceProvider.cs:66-96 | folding any permutation of the same transfers gives the same balances and the same cache |
| BitsharesProofs.DescendingOrderIrrelevant | Lykke.Tools.BlockchainBalancesReport/Blockchains/Bitshares/BitsharesBalanceProvider.cs:68 | replaying latest first gives exactly what replaying in history order gives |
| BitsharesProofs.GetBalancesSpec | Lykke.Tools.BlockchainBalancesReport/Blockchains/Bitshares/BitsharesBalanceProvider.cs:40-98 | the call returns, for the kept entries of the history up to the first empty batch, each asset's sum of signed aligned amounts and the updated cache; without an empty batch it runs out of pages |
| BitsharesProofs.NothingKeptNoBalances | Lykke.Tools.BlockchainBalancesReport/Blockchains/Bitshares/BitsharesBalanceProvider.cs:42 | a history with no kept entry gives an empty balance map |
| BitsharesProofs.TotalsPerAsset | Lykke.Tools.BlockchainBalancesReport/Blockchains/Bitshares/BitsharesBalanceProvider.cs:72-95 | an asset is reported iff some kept transfer resolves to it, with the sum of those transfers' changes |
| BitsharesProofs.Pow10Add | Lykke.Tools.BlockchainBalancesReport/Blockchains/Bitshares/BitsharesBalanceProvider.cs:75 | 10^(a+b) = 10^a · 10^b for the power of ten the scaling divides by |
| BitsharesProofs.DenominatorIsPowerOfTen | Lykke.Tools.BlockchainBalancesReport/Blockchains/Bitshares/BitsharesBalanceProvider.cs:75 | the divisor is 10^precision: a power of ten for a non-negative precision, the reciprocal of one for a negative precision, and one more digit multiplies it by ten |
| BitsharesProofs.AlignedRescale | Lykke.Tools.BlockchainBalancesReport/Blockchains/Bitshares/BitsharesBalanceProvider.cs:75 | a raw amount k digits longer at a precision k larger is the same amount of the asset |
| BitsharesProofs.IncomingOutgoingOpposite | Lykke.Tools.BlockchainBalancesReport/Blockchains/Bitshares/BitsharesBalanceProvider.cs:84-92 | receiving and sending the same amount are exact opposites and cancel, whatever the other recipient is, a null `To` included |
| BitsharesProofs.CapitalisedRecipientOutgoing | Lykke.Tools.BlockchainBalancesReport/Blockchains/Bitshares/BitsharesBalanceProvider.cs:84 | the recipient is compared exactly: the address written in capitals counts as another account, so the amount is sent |
| BitsharesProofs.BtsChangeFloorBound | Lykke.Tools.BlockchainBalancesReport/Blockchains/Bitshares/BitsharesBalanceProvider.cs:77-80 | for "1.3.0" and a non-negative raw amount the change's size is at most the aligned amount and less than one unit below it |
| BitsharesProofs.OtherAssetUnrounded | Lykke.Tools.BlockchainBalancesReport/Blockchains/Bitshares/BitsharesBalanceProvider.cs:75-92 | for any other asset the change is the aligned amount, unrounded, when `To` equals the address and its negation otherwise |
| BitsharesProofs.ReceivedAddsSentSubtracts | Lykke.Tools.BlockchainBalancesReport/Blockchains/Bitshares/BitsharesBalanceProvider.cs:84-92 | for a non-negative raw amount of any asset, a transfer to the address never lowers the balance and any other transfer never raises it |
| BitsharesProofs.BtsChangeIsWhole | Lykke.Tools.BlockchainBalancesReport/Blockchains/Bitshares/BitsharesBalanceProvider.cs:77-80 | every change to an asset with id "1.3.0" is a whole number |
| BitsharesProofs.BtsFloorsBeforeSign | Lykke.Tools.BlockchainBalancesReport/Blockchains/Bitshares/BitsharesBalanceProvider.cs:77-92 | 35441.7 BTS received counts as 35441, and 1.7 BTS sent counts as −1: the floor comes before the sign |
| BitsharesProofs.BtsBalanceIsWhole | Lykke.Tools.BlockchainBalancesReport/Blockchains/Bitshares/BitsharesBalanceProvider.cs:77-80 | every reported balance of an asset with id "1.3.0" is a whole number |

## Left out

- HTTP clients, URL building, JSON deserialisation and `decimal.Parse` of `Quantity` and
  `BalanceTotal`: responses are already-typed values, and amounts are `real`. A malformed number,
  which would throw, is not modelled.
- The retry loop itself, with its unbounded attempts, its sleeps and its warning logs. Only a single
  retry decision (`Retry.Decide`) and the wait function are modelled. The engines receive the
  responses the policy delivered.
- EOS concurrency: the genesis request runs concurrently with paging in the code. Here it is a
  sequential input consulted after the loop, which matches the order in which the code uses it.
- Eos.ToAssets: does not claim what `ToDictionary` does when two keys produce equal assets. The
  model's `Asset` has structural equality, so no collision can arise. The real `Asset` class is not
  part of this model.
- Text.EqualsIgnoreCase: folds ASCII letters only. Culture-invariant case mapping of other
  characters is not modelled; EOS account names are lower-case ASCII.
- Bitshares.Denominator: uses the exact rational `10^precision` where the code casts
  `Math.Pow(10, precision)`, a double, to decimal. The rounding of that double, and the overflow of
  the cast for very large precisions, are not modelled.
- Bitshares.GetAssetInfo: the metadata endpoint is a total function parameter. A failing metadata
  request, which the code does not retry and which would abort the call, is not modelled. Neither
  is a failing history request.
- Assets are compared field by field (name, blockchain id, platform id), because `Asset` is a
  datatype here. The code's `Asset` class is not part of this model, so its equality, and whether
  `ToDictionary` on line 165 of the EOS provider could meet two equal assets, is a modelling choice
  rather than something taken from the code.
- `decimal` arithmetic is exact here: the 28-digit rounding of the division that aligns a Bitshares
  amount, and the overflow of the running sums (EOS line 128, Bitshares line 94), are not modelled.
- Timestamps are integers (ticks). The `DateTime` kind is not modelled.
- The report writer, settings classes, the Decred provider (a thin wrapper over an
  explorer-supplied balance) and the ZCash explorer URL format have no replay logic and are not
  part of this model. The same goes for the golden-value tests against live explorers.
