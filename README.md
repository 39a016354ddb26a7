# Fraud-risk scoring of a finance tracker, in Dafny

This project models the decision logic of a multi-user finance tracker's backend:

- **The risk evaluator** (`FraudService.evaluateSingle`). It scores one transaction against a window of that user's transactions. Three additive rules contribute to the score: an amount tier, the number of transactions in the trailing hour, and a new-merchant check. The score is clamped at 1 and mapped to low, medium or high, and the result carries one reason per rule that fired.
- **The per-user statistics replay** (`TransactionsService.getUserStats`). For each of a user's transactions it builds a 24-hour window, re-runs the evaluator, tallies the three tiers and computes percentages.
- **The ingestion path** (`TransactionsService.createForUser`). It builds the record with its currency default, saves it, fetches the recent window after the save and scores the saved record.

## Files and representation

- `records.dfy` (module `Records`): the transaction record, the create request and `Option`. A timestamp is an `int` of milliseconds. The amount is a `real`. The owner is `Option<int>`, because the owning-user relation may be missing on a loaded row.
- `selection.dfy` (module `Selection`): the services' `filter` calls. Each closure is written out as a `Criterion`, and one `Select` function does the filtering. Its lemmas (membership, multiplicities, insensitivity to order, concatenation) serve all four windows.
- `fraud.dfy` (module `FraudService`): the evaluator. The score is in integer tenths: 7 stands for 0.7 and the reported score is `riskTenths / 10`. Every contribution and threshold in the source is a multiple of 0.1. The six reason strings are the constructors of `Reason`, and `Message` gives the exact text the service returns. `Assess` is the specification. It lists the contributions of the rules that fire (`Fired`), sums them, clamps the sum and maps it to a level. `EvaluateSingle` is the imperative evaluator: a mutable score, appended reasons, a clamp reassignment and a level update. It is proved equal to `Assess`.
- `transactions.dfy` (module `TransactionsService`): the statistics loop and the ingestion path, with the store's results given as sequences:
  - `GetUserStats` is a `for` loop with three counters, proved against `CountLevel`.
  - Percentages are in tenths of a percent, so 333 stands for 33.3.
  - `CreateForUser` takes the store's rows before the save and the id the save assigns. It models the save as appending the new record, and the fetch as `IngestWindow` over the rows after the save.

Values are immutable Dafny datatypes, so neither the subject nor the window can be changed by the evaluator, and every function is deterministic.

The two windows are different, and the model follows the code:
- The statistics window keeps entries with `ts - 24h <= t.timestamp <= ts` whose owner is the user.
- The ingestion window keeps entries with `t.timestamp > ts - 24h` and has no upper bound. It is fetched after the save, so it always contains the saved record.

`IngestAndStatsWindows` pins down exactly where the two windows differ.

The entity's user relation is declared `eager: false`, so a loaded row's `user` may be absent. The statistics filter compares `t.user?.id` with the user id, so an absent owner excludes the row. `OwnerlessHistory` states the consequence. If no row carries its owner, every statistics window is empty. Each transaction is then scored on its amount plus the new-merchant rule: high from 50000, medium from 10000, low otherwise.

## Model

| member | source | states |
|---|---|---|
| `Selection.Select` | backend/src/transactions/fraud.service.ts:34-50 | a filter keeps exactly the entries that match its criterion and is never longer than its input |
| `Selection.SelectMultiset` | backend/src/transactions/fraud.service.ts:34-36 | each matching entry is kept as often as it occurs in the input; non-matching entries are dropped |
| `Selection.SelectPermutation` | backend/src/transactions/fraud.service.ts:34-50 | reordering the input does not change which entries a filter keeps, or how many |
| `Selection.SelectAppend` | backend/src/transactions/transactions.service.ts:43-48 | filtering a concatenation is the concatenation of the filtered parts |
| `FraudService.LastHour` | backend/src/transactions/fraud.service.ts:33-36 | the velocity window is exactly the window entries with `ts - 1h <= t.timestamp <= ts`, both ends inclusive |
| `FraudService.LastHourMultiplicity` | backend/src/transactions/fraud.service.ts:33-36 | each entry in the trailing hour is counted as often as it occurs in the window; entries outside it are not counted |
| `FraudService.Fired` | backend/src/transactions/fraud.service.ts:19-56 | at most three rules fire; each adds a positive amount equal to its reason's weight; the fired rules come in the order amount, velocity, merchant |
| `FraudService.Assess` | backend/src/transactions/fraud.service.ts:12-69 | the score is at most 1.0 (10 tenths); an unclamped sum above 1.0 becomes 1.0, one at or below 1.0 is kept; the level is high iff score >= 0.7, medium iff 0.3 <= score < 0.7, low iff score < 0.3; at most three reasons |
| `FraudService.EvaluateSingle` | backend/src/transactions/fraud.service.ts:12-69 | the step-by-step evaluator (accumulating score, pushing reasons, clamping, setting the level) returns exactly the specified assessment |
| `FraudService.PreviousForMerchant` | backend/src/transactions/fraud.service.ts:48-51 | the merchant filter is non-empty iff some window entry has the same merchant and a different id |
| `FraudService.ScoreIsWeightOfReasons` | backend/src/transactions/fraud.service.ts:17-56 | the unclamped score equals the sum of the weights of the reported reasons, so a reason is present iff its contribution was added |
| `FraudService.ReasonsInRuleOrder` | backend/src/transactions/fraud.service.ts:17-56 | reasons appear in rule order (amount, velocity, merchant), at most one per rule |
| `FraudService.ReasonsByRule` | backend/src/transactions/fraud.service.ts:17-56 | a reason is reported iff the rule it belongs to fired with that reason |
| `FraudService.AmountTiers` | backend/src/transactions/fraud.service.ts:20-30 | "Very high" iff amount >= 100000, "High" iff 50000 <= amount < 100000, "Above-average" iff 10000 <= amount < 50000; the tiers exclude each other |
| `FraudService.AmountTierContribution` | backend/src/transactions/fraud.service.ts:20-30 | relative to the same transaction with amount 0, the unclamped score rises by exactly 0.7, 0.5, 0.3 or 0 according to the tier |
| `FraudService.VelocityTiers` | backend/src/transactions/fraud.service.ts:33-44 | "Unusual number" iff the trailing-hour count is >= 10; "High number" iff the count is 5 to 9 |
| `FraudService.VelocityAtTheThresholds` | backend/src/transactions/fraud.service.ts:38-44 | with every window entry inside the trailing hour, exactly 9 entries give the lower tier and 10 or more give the upper tier |
| `FraudService.NewMerchantRule` | backend/src/transactions/fraud.service.ts:48-56 | "New merchant for this user" is reported iff no window entry has the same merchant and a different id |
| `FraudService.OwnIdNeverSeenBefore` | backend/src/transactions/fraud.service.ts:47-50 | adding an entry with the subject's own id never changes whether the new-merchant rule fires |
| `FraudService.EmptyWindow` | backend/src/transactions/fraud.service.ts:34-56 | with an empty window there is no velocity reason, the last reason is the new-merchant one, and apart from the amount tier the score is exactly 0.2 |
| `FraudService.AssessIgnoresOrder` | backend/src/transactions/fraud.service.ts:34-50 | the assessment depends only on which transactions are in the window (with multiplicity), not on their order |
| `FraudService.WholeWindowInLastHour` | backend/src/transactions/fraud.service.ts:34-36 | when every window entry lies in the trailing hour, the velocity count is the window's length |
| `FraudService.KnownMerchantScenario` | backend/src/transactions/fraud.service.ts:12-69 | amount 75000 at a merchant with three earlier transactions 2h, 3h and 10h back gives score 0.5, level medium and the single reason "High transaction amount" |
| `FraudService.NewMerchantScenario` | backend/src/transactions/fraud.service.ts:12-69 | amount 5000 with an empty window gives score 0.2, level low and the single reason "New merchant for this user" |
| `TransactionsService.StatsWindow` | backend/src/transactions/transactions.service.ts:87-93 | the statistics window is exactly the list entries with `tx.ts - 24h <= t.timestamp <= tx.ts` owned by the user; an entry without owner is excluded |
| `TransactionsService.StatsWindowMultiplicity` | backend/src/transactions/transactions.service.ts:87-93 | each in-range entry of the user is kept as often as it occurs in the list; every other entry is dropped |
| `TransactionsService.PctTenths` | backend/src/transactions/transactions.service.ts:102 | the percentage is count/total*100 to the nearest tenth (at most half a tenth off, halves rounded up) and at most 100.0 when count <= total |
| `TransactionsService.GetUserStats` | backend/src/transactions/transactions.service.ts:65-113 | total is the list length; an empty list gives all zeros; each counter equals the number of transactions the evaluator, run on that transaction's own window, puts in that tier; the counters sum to the total; percentages are computed per tier from the counts |
| `TransactionsService.LevelCountsPartition` | backend/src/transactions/transactions.service.ts:95-99 | each transaction increments exactly one of the high, medium and low counters |
| `TransactionsService.SameLevels` | backend/src/transactions/transactions.service.ts:88-95 | two lists with the same entries assign every transaction the same level |
| `TransactionsService.StatsIgnoreOrder` | backend/src/transactions/transactions.service.ts:86-100 | the tier counts do not depend on the order of the fetched list, so the DESC ordering only affects presentation |
| `TransactionsService.OwnerlessHistory` | backend/src/transactions/transactions.service.ts:88-93 | if no row carries its owner, every window is empty and the level is high from amount 50000, medium from 10000, low otherwise |
| `TransactionsService.NewRecord` | backend/src/transactions/transactions.service.ts:28-36 | the record copies amount, merchant, category and location, is owned by the user, and its currency is the request's when non-empty, otherwise "INR"; the stored currency is never empty |
| `TransactionsService.IngestWindow` | backend/src/transactions/transactions.service.ts:42-48 | the ingestion window is exactly the user's rows with timestamp strictly greater than `ts - 24h`, with no upper bound |
| `TransactionsService.CreateForUser` | backend/src/transactions/transactions.service.ts:17-53 | the saved record is the built record with the assigned id; it is in its own ingestion window, so it counts toward its own velocity; the result is its assessment on that window |
| `TransactionsService.IngestAndStatsWindows` | backend/src/transactions/transactions.service.ts:42-93 | the two windows agree except at their edges: an entry exactly 24h old is only in the statistics window, an entry newer than the subject only in the ingestion window |
| `TransactionsService.LaterEntriesSkipVelocity` | backend/src/transactions/transactions.service.ts:42-48 | entries newer than the subject reach the ingestion window but leave its trailing-hour selection unchanged |

## Left out

- HTTP controllers, guards and role checks; OAuth, JWT and user persistence; migrations and module wiring. These are routing, protocol glue and configuration, not decision logic.
- The global statistics and the admin listing (`getGlobalStats`, `findAll`). The admin controller calls them, but they are not defined in `transactions.service.ts`, so they are not part of this model.
- Timestamp resolution in `createForUser` (transactions.service.ts:21-26): parsing a date string or reading the wall clock. The resolved timestamp is a parameter of `CreateForUser`.
- The repository itself. `save` is modelled as appending the new record to the store's rows, with the generated id given as a parameter. `find` is modelled as a filter over the rows. `createdAt`, asynchrony and store failures are not modelled.
- `findAllForUser`'s DESC ordering (transactions.service.ts:55-60). `GetUserStats` takes the fetched list as given, and `StatsIgnoreOrder` shows that the counts do not depend on its order.
- TypeORM relation loading. The owner is a plain `Option`, and the filter is modelled as written.
- Floating point. In IEEE doubles, 0.7 + 0.2 is 0.8999999999999999, so the service reports that where the model has 9 tenths. Every possible sum of contributions compares against 0.3, 0.7 and 1 the same way in doubles as in tenths, so the levels and the clamp are unaffected. NaN amounts and invalid dates are not modelled.
- PctTenths: models `toFixed(1)` as round-half-up of the exact ratio. A ratio whose double value falls just below a half-tenth may round down in the service.
- Reason texts: `FraudResult.reasons` holds `Reason` values rather than strings; `Message` maps each to the exact text.
