# Verified model of the billing and calculator cores

A Dafny model of the stateful and arithmetic cores of the billing and calculator platform, with
proofs of what they keep true. Check it with `dafny verify dfyconfig.toml`.

## What is modelled

- **Wallet** (`WalletLedger`, `WalletStore`, `WalletConcurrency`): wallets, ledger and usage events as
  tables; a debit as an operation with its gates, as one session's method, and as a transaction whose
  statements interleave with any others under row locks. Money is in micro-EUR, balances in the units
  of their column.
- **Failed debits** (`FailedDebits`, `ReconcilePass`, `OverlappingPasses`): chat calls that debit or record a
  failure, the reconcile pass, every way a debit or its mark can get lost, and passes that overlap.
- **Worker pool** (`EnginePool`): the event-driven state machine and the pool object.
- **Consistent hashing** (`JumpHash`, `HashRing`): the jump loop with its 64-bit generator and a rounding
  function as a parameter, and the ring of instances.
- **Batch evaluation** (`FormulaCache`, `BatchEvaluate`): the two-level cache, in which entries may vanish
  at any moment, and the two handlers. What a formula evaluates to, and what of caches and pool fails during a
  request, are parameters.
- **Transforms** (`Calendar`, `Transforms`, `Decimal`): day arithmetic after section 21.4.1 of ECMA-262 and
  the date, time and datetime strings. Cell numbers are reals; the round trips allow for rounding.
- **Calculator slots** (`CalculatorSlots`, `SlotConcurrency`, `VanishedConfigs`): the slot table, orphan
  reconciliation, and interleaved uploads, checks, PATCHes, deletions and quota changes under an advisory lock
  per account.
- **Key cache** (`KeyCache`): Validate, Update and Revoke as interleaved steps under one clock.
- **Contextual prefixes** (`ContextGenerator`): the semaphore and breaker, with `then` and `finally` as
  separate events.
- **Rate limiter** (`RateLimit`): store, sweep and the history of all admissions.
- **Chunker** (`Text`, `Sentences`, `Headings`, `Overlaps`, `Estimates`, `Packing`, `Cutting`,
  `TextShapes`, `Grouping`, `Merging`, `Chunker`): sections, paragraphs, sentences, words, overlaps, what each
  piece consists of, and which sections share a chunk.
  Strings are sequences of characters; case mapping is a parameter.
- **External API description** (`Json`, `OpenApiRefs`): reference closure and pruning.
- **Cells** (`CellRefs`, `SelfRefs`, `SelfRefScan`): column letters, cell names, mappings, and shrinking of ranges that
  contain their own cell.
- **Re-indexing** (`ReindexPlan`, `Reindex`): the comparison by hash and the batched plan. SHA-256, the
  embedding service and the id generator are parameters.
- **XLSX prefixes** (`XlsxFormula`): adding and stripping function prefixes. The lists of names are a
  parameter: names of capital letters, digits and dots that start with a letter, as all those at
  services/formula-api/src/utils/xlsx-formula.js:6-51 are.

Sequential methods are proved against specification functions; protocols are step functions whose runs
are sequences of actions, so a sequence is an interleaving. An action that is not possible changes
nothing.

## Findings

The model follows the code. Where that differs from what comments, documentation or a promised property
say, the lemmas named here give an input and the exact condition.

- `balance_eur` and `balance_after_eur` have four decimals (migrations/cms/011_pricing_v2_ai_wallet.sql,
  migrations/cms/013_pricing_v2_ai_wallet_ledger.sql) and amounts six, so the ledger law holds exactly only
  for debits of whole column units; smaller ones can be free (`BalanceLawIffWhole`, `TinyDebitIsFree`).
- The reconciler's advisory lock does not stop a second pass from debiting a row it selected earlier, or from
  marking a debited row waived: the status is not read again under the lock (`AtMostOnceIff`, `StaleIff`,
  `DebitedTwice`, `DebitedAndWaived`; `ReadAgainSuffices`).
- The comment on lines 9-11 of services/formula-api/src/services/hash-ring.js says that from N to N + 1 buckets
  about 1/(N + 1) of the keys move, and they move to the new bucket only (`MinimalMovement`, `JumpBalance`). The
  ring maps buckets to instances by their sorted ids, so of instances this holds only under the condition of
  `JoinMoves`: a newcomer that does not sort last can move keys between old instances
  (`JoinInFrontMovesOthers`).
- Locales are not checked, and with a colon in one a request can be answered with the cached value of another
  (`SameKeyIff`, `SharedIff`, `FoundByOther`).
- The comment on line 8 of services/formula-api/src/utils/transforms.js says 1900-01-01 is serial 1; the code
  gives 2, and the serial is one more than the spreadsheet's until 1900-02-28 (`AgreesFromMarch1900`). Years 0
  to 99 are read as 1900 to 1999 (`DateAccepted`).
- A PATCH takes no lock, so an upload can be accepted over the allowance (`OverrunIff`, `PatchOverruns`).
- Errors of a single orphan INSERT are caught so that a bad row does not block the quota check
  (services/formula-api/src/services/calculator-slots.js:213-217), but PostgreSQL has then aborted the
  transaction. With a config deleted between the SELECT and its INSERT, which the foreign key in
  migrations/cms/008_pricing_v2_calculator_slots.sql refuses, the check is answered with an error only
  (`OnlyThrows`, `AnswersIff`, `OneBadRowBlocks`).
- With a limit lowered since, the seconds a denied user is told to wait need not be enough (`RetryIff`,
  `LoweredLimit`).
- The chunker's comment (services/ai-api/src/services/chunker.js:24) says sections are never merged; a section
  below the least size joins the chunk before it if there is room (`OneEachIff`, `NoMerging`, `SectionsMerged`).
  A heading with no other line than blank ones below it is dropped (`ContentsOfLines`), and so are marks the
  sentence pattern cannot start at (`CoveredIff`, `DropsLeadingMark`), in the paragraphs that are cut (`CutInFront`).
- insertChunkBatch (services/ai-api/src/services/ingest-worker.js:284-286) lists fifteen columns and fourteen
  values, without one for `content_hash`, which PostgreSQL refuses, after the old rows have been deleted
  (`AllPlacedIff`, `LeftAsWritten`). `EveryChunkPlaced` and `OneRowEach` are about the INSERT the columns ask
  for. Reused rows lose their section, because the sections are deleted and only the index is updated.
- Security schemes are kept only if a `$ref` names them, which a `security` requirement does not (`KeptIff`,
  `RequiredSchemeGoes`), and a reference into an item does not keep it (`DeepRefDangles`).
- Stripping prefixes is called idempotent; it is exactly under the condition of `StripTwiceIff`
  (`StripNotIdempotent`).

## Model

| member | source | states |
|---|---|---|
| `WalletLedger.AnswerFrame` | services/ai-api/src/hooks/wallet-debit.js:68-125 | an operation on one account never changes what a debit of another account is answered |
| `WalletLedger.AnswerIff` | services/ai-api/src/hooks/wallet-debit.js:59-125 | a debit is told no wallet, insufficient, cap exceeded or its new balance exactly if the tables call for that: money is there if the balance is above 0 and covers the cost, and the cap stops it if the sum of the account's debits since the month began, with the cost, is above it |
| `WalletLedger.HistoryTold` | services/ai-api/src/hooks/wallet-debit.js:127-168 | after every sequential history an account has the cap that was set last, and its ledger rows add up to what was paid in and what its accepted debits cost |
| `WalletLedger.ReplayKeepsBooks` | services/ai-api/src/hooks/wallet-debit.js:127-168 | after every sequential history each ledger row carries the balance its own commit produced, each debit row points to its own usage event of equal cost, and every balance is the one its rows add up to |
| `WalletLedger.BalanceLawWithinRounding` | services/ai-api/src/hooks/wallet-debit.js:127-135 | the stored balance differs from opening + credits - debits by at most half a unit of the balance column per debit |
| `WalletLedger.BalanceLawIffWhole` | services/ai-api/src/hooks/wallet-debit.js:127-135 | balance = opening + credits - debits after every row, if and only if every debit is a whole number of the column's units |
| `WalletLedger.TinyDebitIsFree` | services/ai-api/src/hooks/wallet-debit.js:127-168 | a debit of 40 micro-EUR is recorded in the ledger and leaves the balance where it was |
| `WalletLedger.HistoryBalance` | services/ai-api/src/hooks/wallet-debit.js:68-168 | both balance laws over every sequential history of debits, credits and cap changes |
| `WalletLedger.DebitWithinCap` | services/ai-api/src/hooks/wallet-debit.js:93-125 | a debit that goes through ends with its month's sum within the cap it was checked against |
| `WalletLedger.HistoryWithinCaps` | services/ai-api/src/hooks/wallet-debit.js:93-125 | with caps that never fall, no month's debits ever exceed the cap |
| `WalletStore.Store.MonthlySpent` | services/ai-api/src/hooks/wallet-debit.js:101-113 | the loop over the ledger gives the sum of the account's debits since the month began |
| `WalletStore.Store.DebitWallet` | services/ai-api/src/hooks/wallet-debit.js:55-168 | the transaction alone: the answer is the one the tables call for, and the new tables are those of the debit operation of the ledger, refusals changing nothing |
| `WalletStore.Store.TopUp` | services/cms/extensions/local/project-extension-stripe/src/provisioning.ts:172-263 | a payment not seen before adds to the balance and appends its ledger row; one delivered again changes nothing |
| `WalletConcurrency.Serializable` | services/ai-api/src/hooks/wallet-debit.js:68-168 | every interleaving of the statements of any number of debits and top-ups equals a sequential history, in the tables and in every caller's answer |
| `WalletConcurrency.RepliesJustified` | services/ai-api/src/hooks/wallet-debit.js:68-168 | in every interleaving each reply, a refusal for no wallet, too little money or the cap or a debit, is what the committed tables call for at the moment it is given |
| `WalletConcurrency.InterleavedBooks` | services/ai-api/src/hooks/wallet-debit.js:68-168 | in every interleaving ledger, usage events and balances agree, and each debit was paid out of money that was there |
| `WalletConcurrency.InterleavedCaps` | services/ai-api/src/hooks/wallet-debit.js:93-125 | in every interleaving with non-decreasing caps no month exceeds its cap |
| `WalletConcurrency.InterleavedBalance` | services/ai-api/src/hooks/wallet-debit.js:68-168 | in every interleaving the balance law holds up to rounding, and exactly if and only if all debits are whole units |
| `FailedDebits.Conservation` | services/ai-api/src/hooks/wallet-failed-debits.js:57-231 | in every run with one pass at a time: ledger debits + pending + waived + lost = cost of the finished calls + the row just debited + what slipped through a lost COMMIT or mark |
| `FailedDebits.SlippedIff` | services/ai-api/src/hooks/wallet-failed-debits.js:153-215 | nothing slips if and only if no COMMIT acknowledgement or status UPDATE was lost and no pass died between debit and mark |
| `FailedDebits.BooksCloseIff` | services/ai-api/src/hooks/wallet-failed-debits.js:57-231 | with one pass at a time, ledger debits + pending + waived + lost equal the finished calls and the row just debited, if and only if no step was one whose effect its caller could not see |
| `FailedDebits.Select` | services/ai-api/src/hooks/wallet-failed-debits.js:141-150 | the selected rows are pending and from before the cut-off, oldest first, no more than the limit, and leave out an older one only for older ones |
| `FailedDebits.AtMostOnce` | services/ai-api/src/hooks/wallet-failed-debits.js:132-231 | while nothing has slipped a row is debited at most once, a waived row never, a reconciled one exactly once, and a call not both directly and through its row |
| `FailedDebits.StatusMoves` | services/ai-api/src/hooks/wallet-failed-debits.js:153-215 | a row's status changes at most once and only from pending; nothing else about a row changes |
| `FailedDebits.RowSettled` | services/ai-api/src/hooks/wallet-failed-debits.js:174-210 | a debit the caller learns of and its mark: the row ends reconciled exactly if it costs nothing or there is money and room under the cap, waived exactly if there is no money, and stays pending if only the cap stops it, whatever others do in between |
| `OverlappingPasses.AtMostOnceIff` | services/ai-api/src/hooks/wallet-failed-debits.js:132-231 | with any number of overlapping passes and nothing lost, every row is debited at most once if and only if no debit goes through on a row that was marked reconciled before |
| `OverlappingPasses.StaleIff` | services/ai-api/src/hooks/wallet-failed-debits.js:153-215 | no row is debited twice or after it was waived, if and only if every debit that goes through finds its row still pending |
| `OverlappingPasses.PendingIff` | services/ai-api/src/hooks/wallet-failed-debits.js:153-189 | at the moment of a debit the row is pending if and only if it has been neither debited nor waived |
| `OverlappingPasses.ReadAgainSuffices` | services/ai-api/src/hooks/wallet-failed-debits.js:153-215 | if the status were read again under the lock, a row would be debited at most once, a waived one never and a reconciled one exactly once, however passes overlap |
| `OverlappingPasses.DebitedTwice` | services/ai-api/src/hooks/wallet-failed-debits.js:132-215 | a run from empty tables in which two overlapping passes debit the same row |
| `OverlappingPasses.DebitedAndWaived` | services/ai-api/src/hooks/wallet-failed-debits.js:191-205 | a run in which the second pass marks a row waived that has been debited |
| `OverlappingPasses.MarkSettled` | services/ai-api/src/hooks/wallet-failed-debits.js:174-210 | with passes that overlap the mark is settled the same way by the tables the debit found, whatever status the row has got since |
| `ReconcilePass.Reconciler.ReplayRow` | services/ai-api/src/hooks/wallet-failed-debits.js:174-218 | one row of the loop, whatever of debit and status update fails, is one turn of the pass; told and marked, it is waived exactly if there is no money for it, and reconciled exactly if it costs nothing or there is money and room under the cap |
| `ReconcilePass.Reconciler.ReconcileFailedDebits` | services/ai-api/src/hooks/wallet-failed-debits.js:132-231 | the whole pass with any failures: tables, counters and what slipped are those after the selected rows' turns, one after the other, the locked ones left out; debits, pending and waived amounts stay the same but for rows debited and not marked |
| `ReconcilePass.PassTally` | services/ai-api/src/hooks/wallet-failed-debits.js:132-231 | those turns count every row once as skipped, reconciled, waived or failed, change only statuses of selected and lockable rows, and conserve the sum of debits, pending and waived rows but for what slipped |
| `ReconcilePass.RowEnds` | services/ai-api/src/hooks/wallet-failed-debits.js:174-218 | a selected row that can be locked, whose caller learns of the debit and whose mark is stored, ends reconciled if and only if it costs nothing or its account has the money and room under the cap in its turn, waived if and only if the money is not there, and stays pending if and only if only the cap stops it; any other row stays as it was |
| `ReconcilePass.CappedRowLater` | services/ai-api/src/hooks/wallet-failed-debits.js:196-210 | a row that the cap has kept pending is reconciled by a later pass that selects it in a month with room, if the money is still there and no other row of the account comes first |
| `EnginePool.PoolSound` | services/formula-api/src/services/engine-pool.js:34-116 | in every run of dispatches, replies, timeouts, errors, exits and destroy: the counter is the sum of the pending maps, replaced workers having none, and within the queue limit, a timer is live exactly for pending requests, and every accepted request is pending once or settled exactly once |
| `EnginePool.DestroyIsFinal` | services/formula-api/src/services/engine-pool.js:172-184 | from destroy on, whatever happens: nothing pending, no timer, no further request accepted, and every request ever accepted settled exactly once |
| `EnginePool.AcceptedIff` | services/formula-api/src/services/engine-pool.js:79-116 | in every run a request is accepted if and only if the pool has not been destroyed and fewer requests are pending than the queue may hold |
| `EnginePool.InTurn` | services/formula-api/src/services/engine-pool.js:79-149 | in every run the request of turn k, if accepted, goes to the worker then in slot k modulo the size of the pool; accepted dispatches take turns, and creations, accepted or not |
| `EnginePool.EverySlotOnce` | services/formula-api/src/services/engine-pool.js:88-149 | as many turns in a row as there are workers, with requests that are accepted, use every slot exactly once, whatever other events lie between |
| `EnginePool.RefusedCreationTakesTurn` | services/formula-api/src/services/engine-pool.js:142-149 | a creation refused because the queue is full takes its turn, so the same of two workers gets the request before it and the one after |
| `EnginePool.HandlersSettle` | services/formula-api/src/services/engine-pool.js:38-111 | in every run a reply and a timeout settle their request and no other, an error exactly those of its worker, and a late reply nothing |
| `EnginePool.ExitReplaces` | services/formula-api/src/services/engine-pool.js:63-73 | in every run an exit settles what its worker still had, and a new worker without requests gets its slot unless the pool is destroyed |
| `EnginePool.Pool.constructor` | services/formula-api/src/services/engine-pool.js:11-32 | a new pool is in the initial state with one live worker in every slot |
| `EnginePool.Pool.Dispatch` | services/formula-api/src/services/engine-pool.js:79-90 | round robin dispatch is the dispatch step: refused exactly when the pool is destroyed or the queue full, else the request of the turn it takes |
| `EnginePool.Pool.CreateCalculator` | services/formula-api/src/services/engine-pool.js:142-149 | the creation step: the turn is taken before the request can be refused |
| `EnginePool.Pool.DispatchTo` | services/formula-api/src/services/engine-pool.js:92-116 | dispatch to a given worker registers the request and its timer in that worker's map |
| `EnginePool.Pool.OnMessage` | services/formula-api/src/services/engine-pool.js:38-49 | a reply settles its request once; a late one changes nothing |
| `EnginePool.Pool.OnTimeout` | services/formula-api/src/services/engine-pool.js:107-111 | a timeout settles its request and frees its place |
| `EnginePool.Pool.OnError` | services/formula-api/src/services/engine-pool.js:53-60 | an error rejects all requests of its worker |
| `EnginePool.Pool.OnExit` | services/formula-api/src/services/engine-pool.js:63-73 | an exit rejects the rest and respawns the worker unless the pool is destroyed |
| `EnginePool.Pool.Destroy` | services/formula-api/src/services/engine-pool.js:172-184 | destroy rejects the requests of every slot |
| `JumpHash.Compute` | services/formula-api/src/services/hash-ring.js:12-28 | the loop terminates with the bucket of the walk of jumps, for every key and bucket count, whatever the rounding of its floating-point quotient |
| `JumpHash.BucketInRange` | services/formula-api/src/services/hash-ring.js:12-28 | for n >= 1 the bucket is in [0, n) |
| `JumpHash.MinimalMovement` | services/formula-api/src/services/hash-ring.js:12-28 | from n to m buckets a key keeps its bucket or goes to a new one; from n to n + 1 it keeps it or goes to n |
| `JumpHash.JumpBalance` | services/formula-api/src/services/hash-ring.js:18-24 | in exact arithmetic exactly floor((b + 1) * 2^31 / m) of the 2^31 draws take a key from bucket b to bucket m or beyond |
| `JumpHash.ExactIsJump` | services/formula-api/src/services/hash-ring.js:21-24 | without rounding the floating-point expression is that exact quotient |
| `JumpHash.WholeIsJump` | services/formula-api/src/services/hash-ring.js:24-24 | the quotient is rounded before it is multiplied |
| `JumpHash.SeedBefore` | services/formula-api/src/services/hash-ring.js:23-23 | the 64-bit generator can be undone, so different seeds stay different |
| `JumpHash.DrawIff` | services/formula-api/src/services/hash-ring.js:24-24 | a draw is the upper 31 bits of the seed, so each value is drawn by 2^33 seeds |
| `JumpHash.BucketIsLastStop` | services/formula-api/src/services/hash-ring.js:12-28 | the bucket is the last of the places the draws lead to, from 0 on, that is below the number of buckets |
| `JumpHash.MovesIff` | services/formula-api/src/services/hash-ring.js:11-28 | with one more bucket exactly the keys that have it as one of these places move, and they move to it |
| `HashRing.SortedUnique` | services/formula-api/src/services/hash-ring.js:49-53 | two sorted instance lists with the same members are equal, so all instances agree on the order |
| `HashRing.JoinInserts` | services/formula-api/src/services/hash-ring.js:38-56 | an instance that joins takes one place in the list and moves the later ones up by one |
| `HashRing.Ring.Refresh` | services/formula-api/src/services/hash-ring.js:34-57 | refresh sorts the reachable instances with self among them and finds the index of self; a failed fetch changes nothing |
| `HashRing.Ring.GetOwner` | services/formula-api/src/services/hash-ring.js:59-63 | the owner is the instance in the key's bucket, none while there are none |
| `HashRing.Ring.IsSelf` | services/formula-api/src/services/hash-ring.js:65-69 | a key is the instance's own exactly if its bucket is the own index, or there is no ring |
| `HashRing.JoinMoves` | services/formula-api/src/services/hash-ring.js:7-69 | when an instance joins, a key keeps its owner or moves to the newcomer if and only if its bucket in the grown ring is not past the newcomer's place, or it moved from the last old bucket to the new one |
| `HashRing.JoinAtEnd` | services/formula-api/src/services/hash-ring.js:7-69 | a newcomer that sorts last takes keys over and moves no other key |
| `HashRing.JoinInFrontMovesOthers` | services/formula-api/src/services/hash-ring.js:7-69 | a newcomer that sorts first moves a key between two old instances |
| `HashRing.OneOwner` | services/formula-api/src/services/hash-ring.js:59-69 | instances that know the same members name the same owner for every key, and no two of them take it for their own |
| `HashRing.ExactlyOne` | services/formula-api/src/services/hash-ring.js:59-69 | if every member runs, exactly one of them takes the key for its own |
| `FormulaCache.KeyInjective` | services/formula-api/src/services/cache.js:42-43 | with locales free of a colon, equal cache keys mean equal formula and locale |
| `FormulaCache.SameKeyIff` | services/formula-api/src/services/cache.js:42-43 | two different requests share a cache key if and only if one locale is the other, a colon and some x, and the formula with the shorter locale is x, a colon and the other formula |
| `FormulaCache.SharedIff` | services/formula-api/src/services/cache.js:42-43 | a request shares its key with some other one if and only if its locale or its formula has a colon |
| `FormulaCache.FoundByOther` | services/formula-api/src/services/cache.js:42-77 | what one request stores another one finds if and only if their keys meet that way |
| `FormulaCache.OwnHit` | services/formula-api/src/services/cache.js:42-67 | a hit is the value of the request itself if no locale in use has a colon, or neither its locale nor its formula has one |
| `FormulaCache.Cache.Get` | services/formula-api/src/services/cache.js:46-67 | the value in memory, or else in Redis if it can be asked, from where it is put back into memory; a hit is a value of a request with the same key, and of the request itself if no locale in use has a colon |
| `FormulaCache.Cache.Set` | services/formula-api/src/services/cache.js:69-77 | afterwards memory has the value, and Redis if it is ready and takes it; nothing else is added, and the cache stays sound |
| `FormulaCache.Cache.Mget` | services/formula-api/src/services/cache.js:79-115 | what is in memory is a hit at its own index, and what Redis has, if it is asked and its replies can be read; every hit is what a level has for the key, and sound |
| `FormulaCache.Cache.Mset` | services/formula-api/src/services/cache.js:117-129 | afterwards Redis has all entries if it is ready and takes them, memory at least the last, and neither anything else that is new; the cache stays sound |
| `BatchEvaluate.KeptAt` | services/formula-api/src/routes/evaluate.js:250-253 | the walking cache index points to the kept formula the response loop is at |
| `BatchEvaluate.PresentIff` | services/formula-api/src/routes/evaluate.js:19-20 | values are shown as they are and errors by their type, CYCLE and SPILL as REF and LIC as NAME |
| `BatchEvaluate.Handler.Execute` | services/formula-api/src/routes/evaluate.js:136-188 | one formula on its own: blocked it fails, cached it is answered from the cache unless volatile, else with its value, which is stored unless it is an error or volatile |
| `BatchEvaluate.Handler.Misses` | services/formula-api/src/routes/evaluate.js:257-270 | the formulas sent to the worker are exactly the missed and the volatile ones, each once, with their original positions |
| `BatchEvaluate.Handler.Store` | services/formula-api/src/routes/evaluate.js:277-284 | what is stored is exactly the non-error values of non-volatile formulas |
| `BatchEvaluate.Handler.BuildResponse` | services/formula-api/src/routes/evaluate.js:293-321 | blocked formulas fail, volatile ones have their computed value, and the j-th kept one its hit, marked as cached, or else its computed value, each at its own position |
| `BatchEvaluate.Handler.ExecuteBatch` | services/formula-api/src/routes/evaluate.js:191-325 | batch evaluation refines pointwise evaluation: with no colon in the locales in use results[i] is an answer for formulas[i] for every mix of blocked, volatile, cached and missed formulas, with any locales that or the cached value of a request with the same key; what memory or a readable Redis has is answered from it, what is marked as cached comes from there, and exactly the values computed for non-volatile formulas are stored |
| `BatchEvaluate.Handler.ExecuteBatchWithData` | services/formula-api/src/routes/evaluate.js:207-241 | the same over cell data, without the cache |
| `Calendar.YearLength` | services/formula-api/src/utils/transforms.js:9-14 | section 21.4.1 of ECMA-262: a year is 366 days long exactly if it is a leap year |
| `Calendar.DaysKeepOrder` | services/formula-api/src/utils/transforms.js:9-14 | day numbers keep the order of dates, both ways |
| `Calendar.DateOfDay` | services/formula-api/src/utils/transforms.js:24-31 | the date of a valid date's day number is that date |
| `Calendar.DateOf` | services/formula-api/src/utils/transforms.js:24-31 | every day number has a valid date whose day number it is |
| `Calendar.TomorrowIsNextDay` | services/formula-api/src/utils/transforms.js:9-14 | the next date has the next day number, across months and years |
| `Calendar.DaysByMarch` | services/formula-api/src/utils/transforms.js:9-14 | the number of a day equals a count by years that begin in March, without a table of months |
| `Calendar.RollsOver` | services/formula-api/src/utils/transforms.js:9-10 | a day too many is the next day and a month too many one of the next year |
| `Transforms.DateAccepted` | services/formula-api/src/utils/transforms.js:9-14 | a valid date is accepted exactly if it is not before 1899-12-31 or its year is below 100, which is read as one of the twentieth century |
| `Transforms.ApplyDateIff` | services/formula-api/src/utils/transforms.js:44-48 | a text is accepted as a date if and only if it is four, two and two digits with hyphens and its serial, months and days rolled over and years below 100 in the twentieth century, is at least 1; it is badly formatted if and only if it is not so written |
| `Transforms.ApplyTimeIff` | services/formula-api/src/utils/transforms.js:49-53 | a text is accepted as a time if and only if it is one or two, two and perhaps two more digits with colons and is a time of day; its value is its part of a day |
| `Transforms.ApplyDatetimeIff` | services/formula-api/src/utils/transforms.js:54-58 | a date and time are accepted if and only if both are, with a T or a space between; their values are added |
| `Transforms.SerialsKeepOrder` | services/formula-api/src/utils/transforms.js:9-14 | serials are strictly increasing in the date |
| `Transforms.SerialOfTomorrow` | services/formula-api/src/utils/transforms.js:9-14 | consecutive days have serials that differ by 1 |
| `Transforms.AgreesFromMarch1900` | services/formula-api/src/utils/transforms.js:8-14 | the serial is the spreadsheet's own number exactly from 1900-03-01 on |
| `Transforms.DateRoundTrip` | services/formula-api/src/utils/transforms.js:44-48 | a YYYY-MM-DD string comes back unchanged from its serial if and only if it is a real date not before 1899-12-31 |
| `Transforms.DayShown` | services/formula-api/src/utils/transforms.js:24-31 | every number within the range of dates is shown as the day it lies in, except in the last millisecond of a day before 1970, which is shown as the next day |
| `Transforms.TimeRoundTrip` | services/formula-api/src/utils/transforms.js:49-53 | an accepted time comes back in HH:MM:SS form from every number within half a second of its fraction |
| `Transforms.HoursShown` | services/formula-api/src/utils/transforms.js:34-40 | numbers of a day and more are shown with all their hours |
| `Transforms.DatetimeRoundTrip` | services/formula-api/src/utils/transforms.js:54-58 | an accepted date and time come back from every number at most half a second off and not below its day |
| `Transforms.LastHalfSecond` | services/formula-api/src/utils/transforms.js:34-40 | a fraction of a day is shown as a time of day except in the last half second, when it is shown as 24:00:00 |
| `CalculatorSlots.SlotsGrow` | services/formula-api/src/services/calculator-slots.js:42-54 | a larger calculator never takes fewer slots; every calculator takes 1 to 8 |
| `CalculatorSlots.SlotsIff` | services/formula-api/src/services/calculator-slots.js:20-54 | exactly up to 10 sheets and 500 expressions take one slot, exactly from 50 sheets or 5000 expressions on eight, the others three |
| `CalculatorSlots.InsertingReconciles` | services/formula-api/src/services/calculator-slots.js:170-218 | inserting the found orphans one by one adds exactly their rows |
| `CalculatorSlots.ReconcileIdempotent` | services/formula-api/src/services/calculator-slots.js:170-219 | reconciling leaves no orphan, alters no existing row and does nothing the second time |
| `CalculatorSlots.GivenRowIff` | services/formula-api/src/services/calculator-slots.js:170-218 | a config is given a row if and only if it exists without one, is of the account, no test and more than 30 seconds old; the row takes the slots of its stored data |
| `CalculatorSlots.UsedReconciled` | services/formula-api/src/services/calculator-slots.js:170-218 | reconciling adds to the account's use exactly the slots of its configs that should have a row and have none |
| `CalculatorSlots.NothingMissing` | services/formula-api/src/services/calculator-slots.js:186-190 | these are none if the account's configs are tests, young or have rows already |
| `CalculatorSlots.ReconcileElsewhere` | services/formula-api/src/services/calculator-slots.js:170-219 | it does not change what other accounts use |
| `CalculatorSlots.SlotTable.ReconcileOrphanedSlots` | services/formula-api/src/services/calculator-slots.js:197-218 | the loop over the orphans computes the reconciled table, in which the rows given are told by GivenRowIff |
| `CalculatorSlots.SlotTable.QuotaAllows` | services/formula-api/src/services/calculator-slots.js:274-312 | the quota query allows exactly what fits the allowance; without a quota row nothing |
| `CalculatorSlots.SlotTable.AtomicCheckAndUpsertSlot` | services/formula-api/src/services/calculator-slots.js:330-374 | the upload alone: unless the database fails it is refused if and only if the account has no quota, or its use, the slots of its configs without a row and the upload together exceed it; accepted it leaves the account within its allowance with its row written, refused it keeps the reconciled rows, failed it changes nothing |
| `SlotConcurrency.OverrunIff` | services/formula-api/src/services/calculator-slots.js:330-374 | in every interleaving an accepted upload takes its account over the allowance if and only if others raised the use since its check by more than the slack found there and the slots of the row it replaced |
| `SlotConcurrency.NoOverrun` | services/formula-api/src/services/calculator-slots.js:330-374 | without a PATCH of the account since the check no accepted upload, re-uploads included, leaves the account above its allowance at its commit |
| `SlotConcurrency.CheckFits` | services/formula-api/src/services/calculator-slots.js:240-268 | a mere check that is told ok fits at its commit if and only if others used up no more than the slack it found |
| `SlotConcurrency.CommitOnlyAdds` | services/formula-api/src/services/calculator-slots.js:75-109 | a commit alters no existing row except the one the upload is for, and adds rows only for its own account |
| `SlotConcurrency.ReconcilesBeforeCheck` | services/formula-api/src/services/calculator-slots.js:345-349 | undisturbed, the SELECT and its INSERTs show the quota check the reconciled table |
| `SlotConcurrency.RefusedIff` | services/formula-api/src/services/calculator-slots.js:240-312 | undisturbed, a check or upload is refused if and only if its account has no quota or the use in its table, the slots of the configs without a row and its need exceed it |
| `SlotConcurrency.DeletionFrees` | services/formula-api/src/services/calculator-slots.js:75-109 | deleting a config gives back exactly the slots of its row |
| `VanishedConfigs.OnlyThrows` | services/formula-api/src/services/calculator-slots.js:197-219 | in every interleaving, once an INSERT of a session has failed because its config was deleted, the session is never answered anything but an error |
| `VanishedConfigs.AnsweredUnharmed` | services/formula-api/src/services/calculator-slots.js:240-268 | a session answered with anything else has had no INSERT fail |
| `VanishedConfigs.AnswersIff` | services/formula-api/src/services/calculator-slots.js:197-268 | a check whose INSERTs, query and COMMIT nobody disturbs is answered if and only if every orphan it selected still has its config; otherwise it throws |
| `VanishedConfigs.OneBadRowBlocks` | services/formula-api/src/services/calculator-slots.js:197-268 | a run from a table with one old config, deleted between the SELECT and its INSERT, in which a check that fits throws |
| `SlotConcurrency.PatchBetween` | services/formula-api/src/services/calculator-slots.js:130-156 | a PATCH between check and commit lets an accepted upload end over its allowance by the slots of the patched row |
| `SlotConcurrency.PatchOverruns` | services/formula-api/src/services/calculator-slots.js:130-156 | a run from empty tables in which that happens |
| `KeyCache.BoundedStaleness` | services/gateway/internal/service/keys.go:51-132 | in every interleaving an accepted key's data is what its row yielded, unrevoked and not expired when it was judged, at a moment younger than the cache lifetime plus the call that filled the cache; a refusal rests on an equally recent lookup that failed or found no row, a revoked one or one that had expired |
| `KeyCache.AcceptedIff` | services/gateway/internal/service/keys.go:51-132 | a call that finds nothing in the cache and that nobody disturbs accepts the key if and only if the database answers and has a row for it, unrevoked and unexpired, and yields that row's data |
| `KeyCache.ServedIff` | services/gateway/internal/service/keys.go:54-84 | later calls are answered the same from the cache if and only if the lifetime for accepted or for refused keys has not passed, 0 being for ever |
| `KeyCache.WriteSeen` | services/gateway/internal/handler/apikeys.go:298-334 | once Update or Revoke has deleted the entry, an undisturbed call gets the new data, or is refused |
| `KeyCache.UnboundedWithoutTtl` | services/gateway/internal/service/keys.go:79-84 | a run from an empty cache with a lifetime of 0: once the deletion after Revoke has failed, the key is accepted at any later time |
| `KeyCache.AcceptedAgainIff` | services/gateway/internal/handler/apikeys.go:314-334 | once revoked, a key can be accepted again if and only if the cache still holds it as good or a call that saw it good has not answered yet |
| `KeyCache.RevokedForGood` | services/gateway/internal/handler/apikeys.go:314-334 | if no call on the key is in flight when Revoke deletes the entry, it is never accepted again |
| `KeyCache.InFlightRevives` | services/gateway/internal/handler/apikeys.go:504-514 | a call in flight that saw the key good caches it again after the deletion, so calls that begin later are accepted |
| `KeyCache.FreshAfterUpdate` | services/gateway/internal/handler/apikeys.go:298-311 | if no call is in flight when Update deletes the entry, every later reply rests on a row read since |
| `ContextGenerator.AtMostFive` | services/ai-api/src/services/context-generator.js:62-69 | in every order of completions at most five calls run, made in order |
| `ContextGenerator.AlwaysBusy` | services/ai-api/src/services/context-generator.js:62-69 | until the promise is resolved or the breaker opens, five calls are running or all have been made |
| `ContextGenerator.OpenGivesUp` | services/ai-api/src/services/context-generator.js:54-62 | once the breaker is open the end of any call resolves the promise |
| `ContextGenerator.OnlyForward` | services/ai-api/src/services/context-generator.js:62-97 | no call is made twice, and none after the breaker has opened |
| `ContextGenerator.BreakerOpensIff` | services/ai-api/src/services/context-generator.js:70-85 | the breaker is open exactly when three replies in a row, in the order they came, had no text |
| `ContextGenerator.ResolvedContents` | services/ai-api/src/services/context-generator.js:45-99 | when the promise is resolved and ever after each slot holds its chunk's content, behind the text its own call came back with and an empty line if there was one; with the breaker closed no reply is missing |
| `ContextGenerator.AlwaysResolves` | services/ai-api/src/services/context-generator.js:86-91 | every run ends after at most two events a chunk, and when none is left the promise is resolved |
| `ContextGenerator.Generator.constructor` | services/ai-api/src/services/context-generator.js:37-97 | the first calls are made |
| `ContextGenerator.Generator.FillRemaining` | services/ai-api/src/services/context-generator.js:54-60 | empty slots get their chunk's content, and the promise resolves |
| `ContextGenerator.Generator.TryNext` | services/ai-api/src/services/context-generator.js:62-96 | the loop makes calls while there is room and a chunk left, unless the breaker is open |
| `ContextGenerator.Generator.Then` | services/ai-api/src/services/context-generator.js:70-85 | a reply fills its slot and moves the failure count |
| `ContextGenerator.Generator.Finally` | services/ai-api/src/services/context-generator.js:86-91 | the end of a call resolves the promise or goes on |
| `RateLimit.MinuteBound` | services/ai-api/src/utils/rate-limit.js:27-47 | whatever is asked and when, no half-open 60 s window holds more admissions than the highest limit asked for |
| `RateLimit.RetrySucceeds` | services/ai-api/src/utils/rate-limit.js:36-43 | with one limit, waiting the returned seconds guarantees success if nothing else is admitted, and one second less does not |
| `RateLimit.RetryIsEnough` | services/ai-api/src/utils/rate-limit.js:36-43 | the same for any history whose window is just full |
| `RateLimit.RoomIff` | services/ai-api/src/utils/rate-limit.js:31-47 | whatever limits earlier calls had, a denied user is admitted at a later moment, nothing else being admitted, if and only if the oldest of the last limit admissions has left the window by then |
| `RateLimit.RetryIff` | services/ai-api/src/utils/rate-limit.js:36-43 | so waiting the returned seconds is enough if and only if that admission is a minute old by then |
| `RateLimit.LoweredLimit` | services/ai-api/src/utils/rate-limit.js:36-43 | with a limit lowered in between it need not be: two admissions, then a limit of one |
| `RateLimit.Limiter.CheckRateLimit` | services/ai-api/src/utils/rate-limit.js:27-47 | a call is denied exactly when the full history has as many admissions in the last 60 s as the limit, whatever was swept away; the retry time is that of the oldest of them |
| `RateLimit.Limiter.Sweep` | services/ai-api/src/utils/rate-limit.js:10-17 | the sweep drops what is two minutes old and empty entries, and no history, so no later answer changes |
| `Text.SquashTrim` | services/ai-api/src/services/chunker.js:39-39 | trimming takes nothing but white space |
| `TextShapes.TrimIs` | services/ai-api/src/services/chunker.js:39-39 | trimming takes the white space off both ends, all of it and nothing else |
| `TextShapes.SplitOnIs` | services/ai-api/src/services/chunker.js:195-195 | lines are what is between line breaks |
| `Text.SquashParagraphs` | services/ai-api/src/services/chunker.js:84-84 | the paragraphs hold everything but white space |
| `TextShapes.ParagraphsAre` | services/ai-api/src/services/chunker.js:84-84 | the paragraphs are what is between runs of two line breaks or more, which are as long as can be |
| `Text.SquashWords` | services/ai-api/src/services/chunker.js:266-266 | the words hold everything but white space |
| `TextShapes.WordsAre` | services/ai-api/src/services/chunker.js:17-17 | the words are what is between runs of white space; only the first and the last can be empty |
| `TextShapes.EstimateIs` | services/ai-api/src/services/chunker.js:16-18 | the estimate is the least number of tokens that three quarters of a token a word do not exceed |
| `Estimates.EstimateAppend` | services/ai-api/src/services/chunker.js:16-18 | the token estimate is subadditive, whatever white space joins the parts |
| `Estimates.PackingFits` | services/ai-api/src/services/chunker.js:91-95 | parts packed by the sum of their estimates fit the size when joined |
| `Estimates.TrailingEnds` | services/ai-api/src/services/chunker.js:285-289 | the overlap is the end of the text it is taken from |
| `TextShapes.TrailingIs` | services/ai-api/src/services/chunker.js:285-289 | it is the last words, as many as three quarters of the tokens rounded up or all there are, with blanks between |
| `Sentences.CoveredIff` | services/ai-api/src/services/chunker.js:237-237 | the sentence matches hold the whole paragraph if and only if it is all marks, or starts with no mark and has no two marks kept apart by white space only |
| `TextShapes.MatchesAre` | services/ai-api/src/services/chunker.js:237-237 | the matches are cut off from left to right, each a plain run with its marks and white space and as long as it can be, and what is between them are marks |
| `Sentences.DropsLeadingMark` | services/ai-api/src/services/chunker.js:237-237 | a mark at the start of a paragraph is dropped |
| `Headings.SplitIntoSections` | services/ai-api/src/services/chunker.js:194-225 | the loop over the lines computes the sections |
| `Headings.BodiesKept` | services/ai-api/src/services/chunker.js:194-225 | every line that is no heading is in the sections, in order and once |
| `Headings.HeadingNotEmpty` | services/ai-api/src/services/chunker.js:207-207 | a heading line never leaves an empty heading |
| `Headings.HeadingIff` | services/ai-api/src/services/chunker.js:227-234 | a line is a heading if and only if, trimmed, it is one to six hash marks, white space and more, or at least three characters in capitals |
| `Headings.HeadingTextIs` | services/ai-api/src/services/chunker.js:207-207 | its text is what follows all hash marks and the white space after them |
| `Headings.AlwaysSections` | services/ai-api/src/services/chunker.js:219-222 | so the fallback for a text without sections is never taken |
| `Headings.HeadingSurvives` | services/ai-api/src/services/chunker.js:194-225 | a heading line becomes the heading of a section if and only if no other heading line follows at once; the headings come out in order |
| `Headings.ContentsOfLines` | services/ai-api/src/services/chunker.js:39-43 | its text is in the contents if and only if some line before the next heading is not blank, and every other line always is |
| `Headings.ContentsOfText` | services/ai-api/src/services/chunker.js:39-43 | the contents of a whole text, line by line |
| `Headings.ContentsWholeIff` | services/ai-api/src/services/chunker.js:194-225 | the contents of its sections are all of a text if and only if every heading line is its own heading text and has a line that is not blank before the next heading |
| `Cutting.CutInFront` | services/ai-api/src/services/chunker.js:88-130 | the paragraphs of a section that are cut into sentences are those before the first that fits the target size |
| `Cutting.WholeParagraphs` | services/ai-api/src/services/chunker.js:88-130 | what is kept of the paragraphs is all of them if and only if those that are cut are covered by their sentences, and less otherwise |
| `Chunker.SplitBySentences` | services/ai-api/src/services/chunker.js:236-283 | the pieces are those that SentenceGroups and WordGroupsOf describe; they hold exactly the sentences, in order, apart from what their overlaps repeat from the end of the piece before; no piece counts fewer tokens than estimated, and one larger than the size is a single sentence or word |
| `Chunker.SplitSection` | services/ai-api/src/services/chunker.js:82-138 | the pieces of a large section are those that SectionGroups describes; they hold its paragraphs in order, of those that are cut their sentences; that is all of it if and only if these are covered; a piece larger than the target size is a single paragraph, sentence or word |
| `Grouping.SectionGroups` | services/ai-api/src/services/chunker.js:82-138 | the pieces of the paragraphs in front that are cut, then groups of the other paragraphs: each takes as many as fit by the sum of their estimates, the next would not have fitted, and each starts with the last words of the one before if there are overlaps |
| `Grouping.GluedJoins` | services/ai-api/src/services/chunker.js:92-115 | paragraphs are put together with empty lines, also behind repeated words, and sentences as they are |
| `Grouping.SentenceGroups` | services/ai-api/src/services/chunker.js:236-283 | in a paragraph that is cut, once something is in the buffer the sentences form such groups, and none of them is cut at words any more, however large |
| `Grouping.WordGroupsOf` | services/ai-api/src/services/chunker.js:264-275 | words put into a buffer form groups: each takes as many as fit by the estimate of the joined text, and the next would not have fitted |
| `Chunker.ChunkDocument` | services/ai-api/src/services/chunker.js:32-142 | each chunk is made of the sections it holds, in order, with the first one's heading and the document's source; each holds one section if and only if none joins the chunk before it; without the overlaps the chunks hold, in order and once, all headings and bodies of the sections that are not blank, with the paragraphs cut reduced to their sentences; that is everything if and only if these are covered; a chunk over both sizes is a single part |
| `Merging.HeldSoFar` | services/ai-api/src/services/chunker.js:37-138 | chunk k has index k, the source and the heading of the first section it holds; it is that section, or a piece of it if too large, and then the others; chunks hold their sections in order, only one that is too large is in several, and each of which anything is kept is held |
| `Merging.TurnIs` | services/ai-api/src/services/chunker.js:37-138 | a section's turn in full: larger than the largest size it is cut into its pieces, below the least size and not the only one it joins the chunk before it if there is room, otherwise it is a chunk of its own |
| `Merging.OneEachIff` | services/ai-api/src/services/chunker.js:47-80 | every chunk holds one section if and only if no section that is not blank, in a document of more than one, has an estimate below the least size and at most the largest and room behind the last chunk of its turn |
| `Merging.NoMerging` | services/ai-api/src/services/chunker.js:47-80 | in particular if no section that is not blank is below the least size, or there is only one |
| `Merging.TwoInOne` | services/ai-api/src/services/chunker.js:56-64 | two sections of which the second is below the least size become one chunk if both fit |
| `Merging.SectionsMerged` | services/ai-api/src/services/chunker.js:56-64 | with the standard sizes a note of the lines x, # H and y becomes one chunk, without the heading H in its metadata |
| `Chunker.ChunkDocumentWithParents` | services/ai-api/src/services/chunker.js:151-188 | the parents are the non-blank sections; the chunks are those of the parents' texts, each cut into sections once more as a document of its own, with their parent's id and numbered through; they hold what that leaves of the texts, completely if and only if the paragraphs cut are covered by their sentences |
| `Chunker.ParentsWholeIff` | services/ai-api/src/services/chunker.js:151-188 | cutting them into sections once more leaves the parents' texts whole if and only if every heading line in them is its own heading text and has a line that is not blank before the next heading |
| `Merging.NoHeadingLeft` | services/ai-api/src/services/chunker.js:170-184 | where a parent's text has no heading line any more, its chunks carry no heading |
| `Chunker.HeadingRulePlain` | services/ai-api/src/services/chunker.js:203-207 | headings start with no white space, as the above requires |
| `OpenApiRefs.Builder.CollectRefs` | services/formula-api/scripts/build-external-openapi.js:35-42 | the recursive walk adds exactly the references in the value |
| `Json.RefsIff` | services/formula-api/scripts/build-external-openapi.js:35-42 | the references of a value are exactly the texts of the fields $ref in it, at whatever depth |
| `OpenApiRefs.Builder.CloseRefs` | services/formula-api/scripts/build-external-openapi.js:43-53 | the loop terminates with the least set that contains the paths' references and is closed under resolution |
| `OpenApiRefs.Builder.PruneComponentsInPlace` | services/formula-api/scripts/build-external-openapi.js:63-84 | pruning section after section gives the pruned description |
| `OpenApiRefs.Builder.KeepReferenced` | services/formula-api/scripts/build-external-openapi.js:33-84 | closing and pruning together: the result holds only references of the least closure; of those that resolved before exactly the ones into items named in full by none fail, and full names all resolve |
| `OpenApiRefs.PruneWalk` | services/formula-api/scripts/build-external-openapi.js:55-84 | after pruning every path resolves as before, except exactly the items that no reference names in full |
| `OpenApiRefs.RefsKept` | services/formula-api/scripts/build-external-openapi.js:43-84 | the pruned description contains no reference outside the closure |
| `OpenApiRefs.NothingDangles` | services/formula-api/scripts/build-external-openapi.js:55-84 | a reference that resolved before resolves the same afterwards if and only if it does not point to or into an item that no reference names in full |
| `OpenApiRefs.FullNamesResolve` | services/formula-api/scripts/build-external-openapi.js:43-84 | every kept reference of the form #/components/section/name resolves as before |
| `OpenApiRefs.KeptIff` | services/formula-api/scripts/build-external-openapi.js:63-79 | an item is kept if and only if its full name is a reference; a security requirement is none |
| `OpenApiRefs.RequiredSchemeGoes` | services/formula-api/scripts/build-external-openapi.js:45-83 | a description whose one operation requires a security scheme, which is not in the pruned one |
| `OpenApiRefs.DeepRefDangles` | services/formula-api/scripts/build-external-openapi.js:55-79 | a reference into an item does not keep the item |
| `CellRefs.ColToIndex` | services/formula-api/src/utils/mapping.js:7-13 | the loop computes the column, and the column's letters are the given ones |
| `CellRefs.IndexToCol` | services/formula-api/src/utils/mapping.js:16-24 | the loop computes the letters, and their column is the given index |
| `CellRefs.ColumnOfLetters` | services/formula-api/src/routes/parse.js:8-16 | colToIndex(indexToCol(i)) = i for every i >= 0 |
| `CellRefs.LettersOfColumn` | services/formula-api/src/utils/mapping.js:7-24 | indexToCol(colToIndex(s)) = s for every non-empty string of capital letters |
| `CellRefs.ColumnsCount` | services/formula-api/src/utils/mapping.js:6-24 | columns count A to Z, AA to AZ, BA and so on, from 0 |
| `CellRefs.ParseOfName` | services/formula-api/src/services/engine-worker.js:509-517 | the cell name printed on import is read back by the worker as the same row and column |
| `CellRefs.ParseCellIff` | services/formula-api/src/services/engine-worker.js:509-517 | the worker reads exactly letters, in capitals or not, followed by digits |
| `CellRefs.MappingOfCell` | services/formula-api/src/utils/mapping.js:28-51 | a cell of any sheet whose name has no quote is read back from its mapping |
| `CellRefs.MappingOfRange` | services/formula-api/src/utils/mapping.js:28-51 | and so is a range |
| `CellRefs.PlainSheet` | services/formula-api/src/utils/mapping.js:28-51 | a sheet name of letters, digits and underscores needs no quotes |
| `CellRefs.NoSheet` | services/formula-api/src/utils/mapping.js:28-51 | without an exclamation mark or a quote in front there is no sheet |
| `CellRefs.BadSheet` | services/formula-api/src/utils/mapping.js:28-32 | any other sheet without quotes is refused |
| `SelfRefs.ShrinkExactly` | services/formula-api/src/services/engine-worker.js:161-193 | a range with the cell loses exactly the boundary row or column through it and stays non-empty; it is unchanged if and only if it does not contain the cell or the cell is inner on both axes |
| `SelfRefs.ShrinkOnce` | services/formula-api/src/services/engine-worker.js:161-193 | a range once shrunk is not shrunk again |
| `SelfRefs.ReplacementShrinks` | services/formula-api/src/services/engine-worker.js:172-191 | the replacement text is again a range, with every $ kept, and denotes the shrunk range |
| `SelfRefs.RewrittenRange` | services/formula-api/src/services/engine-worker.js:159-192 | a range at the start of a text comes out shrunk and reads back as the shrunk range |
| `SelfRefScan.RewritesRanges` | services/formula-api/src/services/engine-worker.js:159-192 | in the rewritten formula stand exactly the ranges of the formula, each shrunk, and between them exactly what stood between them |
| `SelfRefScan.RewriteTwice` | services/formula-api/src/services/engine-worker.js:159-192 | rewriting a second time changes nothing |
| `SelfRefs.RewriteKeeps` | services/formula-api/src/services/engine-worker.js:159-170 | a formula none of whose ranges contains its cell is unchanged character by character |
| `ReindexPlan.DiffChunks` | services/ai-api/src/services/content-hash.js:21-51 | the loops give the reused and the embedded chunks, each in the order of the new ones |
| `ReindexPlan.ChoiceIff` | services/ai-api/src/services/content-hash.js:21-48 | a new chunk reuses an existing one if and only if it has its hash, which is not empty, no later existing chunk has it and no earlier new one |
| `ReindexPlan.SplitCount` | services/ai-api/src/services/content-hash.js:32-48 | reused and embedded chunks split the new chunks |
| `ReindexPlan.PlaceOf` | services/ai-api/src/services/content-hash.js:32-48 | every new chunk is in exactly the list it belongs to, at its place |
| `ReindexPlan.ReusedOnce` | services/ai-api/src/services/content-hash.js:36-45 | no existing chunk is reused twice |
| `ReindexPlan.EmbeddedOnlyIfNeeded` | services/ai-api/src/services/content-hash.js:33-47 | a chunk is embedded anew only if nothing has its hash or an earlier new chunk took it |
| `Reindex.Chunks.DeleteOld` | services/ai-api/src/services/ingest-worker.js:163-170 | deleting in batches of 100 removes exactly the listed rows |
| `Reindex.Chunks.UpdateReused` | services/ai-api/src/services/ingest-worker.js:173-178 | every reused row gets its new index |
| `Reindex.Chunks.InsertNew` | services/ai-api/src/services/ingest-worker.js:181-184 | inserting in batches of 50 gives every embedded chunk one row with the embedding of its own text if the database accepts the INSERT, and nothing at all if it refuses it and there is something to insert |
| `Reindex.Chunks.IndexDocument` | services/ai-api/src/services/ingest-worker.js:119-223 | the steps together carry out the plan; a refused INSERT ends them and what was done before stays done |
| `Reindex.WrittenIsRefused` | services/ai-api/src/services/ingest-worker.js:284-286 | the INSERT as written has fifteen columns and fourteen values |
| `Reindex.AllPlacedIff` | services/ai-api/src/services/ingest-worker.js:119-223 | with it every new chunk has a row afterwards, and the document counts as indexed, if and only if every new chunk reuses an old row |
| `Reindex.LeftAsWritten` | services/ai-api/src/services/ingest-worker.js:157-223 | what it leaves: exactly the rows of the reused chunks under their new places; the other old rows are gone and no new one is there |
| `Reindex.EveryChunkPlaced` | services/ai-api/src/services/ingest-worker.js:119-184 | with the INSERT its columns ask for, every new chunk has a row with its index and hash and the embedding it had or that of its own text; a reused row has lost its section |
| `Reindex.OneRowEach` | services/ai-api/src/services/ingest-worker.js:157-184 | then no two chunks share a row, and the document has no other rows |
| `Reindex.OthersUntouched` | services/ai-api/src/services/ingest-worker.js:157-184 | other documents keep exactly their rows |
| `XlsxFormula.AddIdempotent` | services/formula-api/src/utils/xlsx-formula.js:67-74 | adding the prefixes a second time changes nothing |
| `XlsxFormula.PrefixedAt` | services/formula-api/src/utils/xlsx-formula.js:58-74 | a listed name followed by white space and a parenthesis, not behind a dot or in a word, gets its prefix, _xlfn._xlws. if it is one of those, and loses the white space |
| `XlsxFormula.CopiedAt` | services/formula-api/src/utils/xlsx-formula.js:58-74 | everywhere else the character is copied |
| `XlsxFormula.RoundTrip` | services/formula-api/src/utils/xlsx-formula.js:67-82 | for a formula without _xlfn. stripping what was added gives the formula without the white space between a listed name and its parenthesis; the formula itself if and only if there is none |
| `XlsxFormula.StripClean` | services/formula-api/src/utils/xlsx-formula.js:80-82 | a formula without prefixes passes through unchanged |
| `XlsxFormula.StripTwiceIff` | services/formula-api/src/utils/xlsx-formula.js:80-82 | stripping twice equals stripping once if and only if nowhere a removed prefix has the first characters of a prefix on its left and, further prefixes left out, the other ones on its right |
| `XlsxFormula.StripNotIdempotent` | services/formula-api/src/utils/xlsx-formula.js:80-82 | a text of that kind |

## Left out

- WalletLedger.AnswerIff: the conversion of dollars and amounts with more than six decimals; costs are whole
  micro-EUR.
- WalletStore.Store.TopUp: expiry of top-ups, auto-reload marks and the provisioning around the credit.
- FailedDebits.Conservation: a recorder's INSERT that commits while its acknowledgement is lost, so that the call
  counts as lost and is recorded all the same.
- ReconcilePass.Reconciler.ReconcileFailedDebits: a status UPDATE that commits while its acknowledgement is lost, so
  that a row is marked and counted as failed all the same.
- OverlappingPasses.AtMostOnceIff: an unlock that fails, after which the account stays locked.
- EnginePool.PoolSound: a postMessage that throws; payloads are JSON values, which can always be cloned.
- BatchEvaluate.Handler.ExecuteBatch: number formats, statistics and the hints added to NAME errors.
- KeyCache.BoundedStaleness: the clocks of Redis, the database and the gateway are one clock.
- ReindexPlan.DiffChunks: SHA-256 is a parameter, so equal hashes are not claimed to mean equal contents.
- Reindex.EveryChunkPlaced: failures other than a refused INSERT; the statements are no transaction.
- SlotConcurrency.NoOverrun: collisions of the lock key's hash, which only serialise more.
- Chunker.ChunkDocument: lengths count characters, not UTF-16 units, in the three-character test of headings.
- OpenApiRefs.Builder.CloseRefs: inherited members of JavaScript objects; YAML reading and writing.
- FormulaCache.Cache.Get: the JSON form of values in Redis.
- FormulaCache.Cache.Mget: what other requests store while Redis is asked; entries only vanish meanwhile.
- The auto-reload queue, cache invalidation messages to the gateway and the parsing of numerics.
- Token totals of the contextual prefixes, and the path on which prefixes are switched off.
- LookupByPrefix and Rotate in the gateway, which repeat Validate and Revoke.
- The always-on quota of slots and the size thresholds as such.
- The second engine that shadows the pool, worker start-up and the payloads of messages.
- Percentages in transforms, the removal of internal operations before the references are collected, spill
  trimming and the grids of parsed workbooks: each is settled by reading one expression or loop.
- HTTP routes, clients, configuration, logging, user interfaces and the formula engines.
