# Leveraged prediction markets: a verified model

This project models, in Dafny 4.11, the leveraged-prediction program, the indexer that follows it and
the three client algorithms that must agree with both, and proves what they promise together.

- **The program.** Each market has a token pool, LP shares, up to eight live positions and a risk
  epoch. `MarketMath` is its checked arithmetic, `Instructions` the result of each instruction as a
  function of the accounts it loads, `Accounts` and `Handlers` the handlers that update those accounts
  step by step, each proved equal to the function of the same name. `Chain` puts every account of
  every user and market, all token balances, the scheduled settlement tasks and the event log into
  one state machine; an instruction that fails changes nothing. `Invariants` says what every
  reachable state satisfies. `OpenKeeps`, `SettleKeeps`, `LiquidityKeeps` and `Runs` prove it over all
  runs, and `ChainTheorems`, `RiskTheorems` and `LpTheorems` draw the promises from it;
  `Faults` says why an instruction fails, `Administration` what modes, transfers and a schedule on time
  do, and `Dilution` how far shares can outgrow tokens.
- **The indexer.** `LogExtraction` reads event payloads out of transaction logs, `Crawl` is the paged
  newest-first crawl, `Projection` the positions table and its two guarded upserts, `Storage` the
  tables and the transactions that write them, `Ingestion` the catch-up and the live path.
  `IngestionRuns` is the process with crashes, reconnects and a growing history, `Replay` which
  transactions it can store, `IngestionGaps` exactly when it loses an event and `IngestionProgress`
  exactly when it can catch up.
- **Chain to index.** `Journaling` bounds what the program writes to its log, and `Publication` prints
  it. `EndToEnd` composes the program with the indexer: the positions table is an image of the chain,
  and `Provenance` names the open, the tick and the oracle price behind each of its rows.
  `PipelineProgress` says exactly when that state can be reached.
- **Index to client.** `LiquidityApi` is the order in which the API serves a user's liquidity rows.
  `LiquidityIndex` proves that the event tables hold each event once, and exactly when the client's
  fold over an answer of the API is defined and gives the shares the chain holds; `LiquidityOrder` is
  a history for which it is not.
- **The client.** `Quotes`, `HistoryFold` and `WalletValidation`.

Integers have the width they have in the source: `Rust` defines the checked conversions (an
unbounded result narrowed to its width, `MathOverflow` when it does not fit) and division truncating
toward zero. That overflow does not happen is therefore a theorem wherever it is claimed. Clocks,
oracle accounts, the scheduler's acceptance of a task and the verdict on a payout destination are
parameters of the commands, so every theorem holds whatever they are. Settlement tasks fire at most
25 times, the i-th (from zero) at or after open time plus i seconds, and keep firing after a tick
that fails.

`dafny verify dfyconfig.toml` checks the project.

## What the code does that its documentation does not say

- A catch-up that is outrun by more new transactions than its limit replays its window, and so moves
  the cursor, *before* the gap check stops the session. The restart that follows finds the cursor and
  goes live: the transactions in between are lost without an alarm (`IngestionGaps.SilentGap`).
- A crawl without a stored cursor is never checked. When the very first crawl crashes before it stores
  anything and the history then outgrows the limit, the next crawl silently starts later than the
  first one did (`IngestionGaps.ColdGap`, `IngestionGaps.ColdCrawlIsUnchecked`).
- `IngestionGaps.GapDecides` says exactly when a catch-up, complete or interrupted, leaves such a gap,
  `IngestionGaps.CoverageExactly` says it of whole runs, and `IngestionRuns.CrashSafe` proves the code
  safe, back to the first crawl's start, for every run in which no catch-up starts with an unstored
  event before its window.
- A withdrawal request may ask for any u64 minimum, but the database stores it as BIGINT. One request
  with a minimum of 2^63 or more, which any holder without a pending withdrawal can make
  (`PipelineProgress.RefusedMinimumIsAccepted`), fails its batch for ever: unless a crawl skips it, the cursor never passes
  its transaction (`PipelineProgress.RefusedIsNeverPassed`). It is the only amount of the program that
  can do so while the tokens themselves fit BIGINT (`PipelineProgress.OnlyMinimumsExceed`).
- The API orders a user's liquidity rows by time, signature and the *text* of the log path, in which
  log/11 comes before log/6. The client folds that order. When one transaction deposits, requests and
  executes on lines 6, 11 and 20, the client meets the execution before the deposit and throws,
  although chain and index are right (`LiquidityOrder.ApiOrderBreaksSummary`); transactions whose
  block times share a second are ordered by signature in the same way.
  `LiquidityIndex.ClientSeesHoldings` says exactly when the client's summary is defined, and
  `LiquidityIndex.ApiKeepsHistoryOrder` exactly when the API keeps the order of the history.
- When the gap check fires on a window in which no transaction moves the cursor, for instance because
  all of them failed, every retry finds the same window and fires again
  (`IngestionProgress.ProgressExactly`).
- Above the crawl clamp of 10,000 the gap check never fires at all (`Ingestion.NeverBailsAboveClamp`).
- The close upsert fills an empty `closed_at` with COALESCE, but its guard does not compare that
  column, so a redelivery that knows the time changes nothing (`Projection.ClosingTimeStaysEmpty`).
- Two opposite positions at one price can pay half a unit more than 5.5 times one collateral, when the
  collateral is odd (`Settlement.OppositeBoundIsTight`).
- A redemption of all shares pays the whole pool exactly when the product of pool and shares fits 128
  bits, and fails otherwise (`ShareMath.FullRedemption`). A market that was never traded always fits
  (`LpTheorems.UntradedMarketIsWhole`); one whose LPs lose trades and deposit the losses back again and
  again multiplies its shares until it does not (`Dilution.FullRedemptionCanFail`).
- The client's largest removable amount is safe but not the largest the program accepts
  (`Quotes.MaximumIsNotTight`).
- A data line whose one-word payload is "success", and no other one-word payload, would be read as the
  end of a call (`LogExtraction.OneWordPayloads`); padded base64 never is
  (`LogExtraction.PaddedFieldsAreData`).
- `DESIGN.md` says that profit is capped at the stake, for a return of at most 1.9 times. The program
  caps gross profit at five times the collateral; the model follows the program.

## Model

| member | source | states |
|---|---|---|
| Settlement.SettlementTotal | programs/leveraged-prediction/src/math.rs:157-227 | for every u32 collateral and all positive prices the settlement succeeds (no overflow), with the payout, fees, profit and loss in closed form |
| Settlement.SettlementConserves | programs/leveraged-prediction/src/math.rs:157-227 | payout + protocol fee + LP fee = collateral + gross profit - loss, within 6 times the collateral, never both a profit and a loss |
| Settlement.SettlementMonotone | programs/leveraged-prediction/src/math.rs:170-186 | a higher price never pays Up less nor Down more |
| Settlement.OppositePositionsBounded | programs/leveraged-prediction/src/math.rs:157-227 | Up and Down at one price together pay at most 5.5 collaterals plus half a unit |
| Settlement.OppositeBoundIsTight | programs/leveraged-prediction/src/math.rs:157-227 | the half unit is reached by a concrete odd collateral |
| ShareMath.DepositKeepsShareValue | programs/leveraged-prediction/src/math.rs:18-33 | a deposit into a funded market never lowers pool per share |
| ShareMath.RedeemKeepsShareValue | programs/leveraged-prediction/src/math.rs:78-88 | a redemption takes at most the pool and never lowers pool per share |
| ShareMath.RedeemableMono | programs/leveraged-prediction/src/math.rs:78-88 | if pool per share has not fallen, neither has what a fixed holding redeems, floors included |
| ShareMath.DepositThenRedeem | programs/leveraged-prediction/src/math.rs:18-33 | depositing and redeeming at once never returns more than was put in, and loses less than one unit and the worth of one share |
| ShareMath.SplittingNeverGains | programs/leveraged-prediction/src/math.rs:18-33 | two deposits never mint more shares than one of their sum, in a funded or an empty market |
| ShareMath.FullRedemption | programs/leveraged-prediction/src/math.rs:78-88 | redeeming all shares pays the whole pool if and only if shares times pool fits 128 bits, and otherwise fails |
| MarketMath.OraclePriceExactly | programs/leveraged-prediction/src/instructions/mod.rs:187-228 | the wrong feed and the wrong exponent are the only errors; any other update gives its price if and only if it was posted, fully verified, positive, fresh, not from the future and confident, and nothing otherwise |
| MarketMath.OracleReadExactly | programs/leveraged-prediction/src/instructions/mod.rs:172-228 | an instruction gets a price if and only if the account holds a qualifying update of the market's own feed, and it is that update's price and time; a foreign, undecodable or other-feed account and a wrong exponent are the errors |
| Lists.SwapRemove | programs/leveraged-prediction/src/instructions/settle_position.rs:93-96 | the removal drops exactly one element of the multiset |
| Lists.SwapRemoveMembers | programs/leveraged-prediction/src/instructions/settle_position.rs:93-96 | names stay distinct and exactly the named position leaves |
| Lists.PositionIndex | programs/leveraged-prediction/src/state.rs:66-70 | the first position with the name, or none has it |
| Lists.TotalSwapRemove | programs/leveraged-prediction/src/state.rs:72-81 | a removal lowers each per-market sum by the removed position's weight and no other |
| Lists.EntryIndex | programs/leveraged-prediction/src/state.rs:96-106 | the first entry of the market, or none has one |
| Lists.MarketOrInsert | programs/leveraged-prediction/src/state.rs:108-128 | the first entry of the market if there is one, with the list unchanged; otherwise one zero entry appended within the capacity, or the capacity error |
| Accounts.UserPositions.OpenCollateral | programs/leveraged-prediction/src/state.rs:72-81 | the checked fold is the sum over the market's positions, or overflow |
| Accounts.UserPositions.FindIndex | programs/leveraged-prediction/src/state.rs:66-70 | the search loop finds the first match |
| Accounts.UserLiquidity.FindOrInsert | programs/leveraged-prediction/src/state.rs:108-128 | the entry is found or appended in place, within capacity |
| Accounts.UserLiquidity.RemoveEmpty | programs/leveraged-prediction/src/state.rs:130-138 | the first entry of the market without shares is swap-removed, otherwise nothing changes |
| Accounts.TokenAccount.Transfer | programs/leveraged-prediction/src/instructions/mod.rs:148-170 | a token transfer moves the exact amount or fails and moves nothing |
| Handlers.AdmitOpen | programs/leveraged-prediction/src/instructions/open_position.rs:18-82 | the admission checks, on the accounts, in the source's order with its errors |
| Handlers.OpenPosition | programs/leveraged-prediction/src/instructions/open_position.rs:9-197 | the handler's new accounts and event are those of the specification |
| Handlers.DecidePayout | programs/leveraged-prediction/src/instructions/settle_position.rs:17-65 | wait, refund or priced payout, as specified |
| Handlers.PayOut | programs/leveraged-prediction/src/instructions/settle_position.rs:66-92 | the two conditional transfers equal moving both amounts |
| Handlers.SettlePosition | programs/leveraged-prediction/src/instructions/settle_position.rs:3-118 | no-op, refund and settlement leave exactly the specified accounts and event |
| Handlers.DepositLiquidity | programs/leveraged-prediction/src/instructions/deposit_liquidity.rs:3-55 | the handler's new accounts and event are those of the specification |
| Handlers.RequestWithdrawal | programs/leveraged-prediction/src/instructions/request_withdrawal.rs:3-26 | the entry's pending fields and the event, or the error |
| Handlers.CancelWithdrawal | programs/leveraged-prediction/src/instructions/cancel_withdrawal.rs:3-19 | the cleared pending fields and the event, or the error |
| Handlers.ExecuteWithdrawal | programs/leveraged-prediction/src/instructions/execute_withdrawal.rs:3-60 | the handler's new accounts and event are those of the specification |
| InstructionFacts.OpenSucceedsExactly | programs/leveraged-prediction/src/instructions/open_position.rs:18-186 | an open succeeds if and only if the stated limits hold in exact arithmetic, the task is accepted, the tokens can move and expiry and nonce fit 32 bits |
| InstructionFacts.DepositSucceedsExactly | programs/leveraged-prediction/src/instructions/deposit_liquidity.rs:3-55 | a deposit succeeds if and only if the market is open and without risk, the first-deposit bounds or the equity cap hold, at least one share and the minimum are minted, the list has room and the tokens can move |
| InstructionFacts.WithdrawSucceedsExactly | programs/leveraged-prediction/src/instructions/execute_withdrawal.rs:3-60 | a withdrawal executes if and only if the market is without risk, a pending amount exists within entry and total, the payout is positive and at least the minimum, and an open market keeps shares and its minimum equity |
| InstructionFacts.OpenFacts | programs/leveraged-prediction/src/instructions/open_position.rs:153-197 | the position is opened at the oracle's own price for the market's feed, the epoch's equity is the running one or the pool up to the cap, and what is appended, counted, moved and emitted |
| InstructionFacts.DecideFacts | programs/leveraged-prediction/src/instructions/settle_position.rs:17-65 | before expiry nothing, from the refund time the untouched collateral, in between only a price of the market's own feed published in the window, with the amounts and outcome of that price; an error exactly when the account cannot be read |
| InstructionFacts.OutcomeTellsPayout | programs/leveraged-prediction/src/instructions/settle_position.rs:120-130 | won, lost and broken even are more, less and exactly the collateral |
| InstructionFacts.SettleFacts | programs/leveraged-prediction/src/instructions/settle_position.rs:66-116 | what a payment moves, removes, uncounts and emits |
| InstructionFacts.SettleFailsOnlyByOracle | programs/leveraged-prediction/src/instructions/settle_position.rs:3-117 | with a six-fold pool the only failure is an unreadable oracle inside the window |
| InstructionFacts.DepositFacts | programs/leveraged-prediction/src/instructions/deposit_liquidity.rs:3-55 | what a deposit that passed the mode, bounds and cap checks mints, moves and emits |
| InstructionFacts.WithdrawFacts | programs/leveraged-prediction/src/instructions/execute_withdrawal.rs:3-60 | what a redemption burns, pays and leaves, at least the minimum asked and never an open market below its minimum |
| InstructionFacts.PendingLifecycle | programs/leveraged-prediction/src/instructions/request_withdrawal.rs:3-26 | a request blocks another, a cancel undoes it, and an execution redeems exactly it |
| Faults.OpenFails | programs/leveraged-prediction/src/instructions/open_position.rs:18-186 | an open fails with the first demand that is not met, listed in exact arithmetic with the limits as numbers, and succeeds otherwise |
| Faults.SettleFails | programs/leveraged-prediction/src/instructions/settle_position.rs:3-56 | a tick for an ended or unexpired position is a no-op, one with another salt is refused, and one that needs a price fails only on an unreadable account |
| Faults.DepositFails | programs/leveraged-prediction/src/instructions/deposit_liquidity.rs:3-55 | the same for a deposit |
| Faults.PendingFails | programs/leveraged-prediction/src/instructions/request_withdrawal.rs:3-26 | which requests and cancellations fail, with which error |
| Faults.WithdrawFails | programs/leveraged-prediction/src/instructions/execute_withdrawal.rs:3-60 | the same for the execution of a withdrawal |
| SettleKeeps.SettleSucceeds | programs/leveraged-prediction/src/instructions/settle_position.rs:3-117 | in a reachable state no transfer, checked_sub, conversion or salt check of a tick fails |
| Runs.RunKeepsInv | programs/leveraged-prediction/src/instructions/settle_position.rs:66-108 | all invariants hold after every command sequence, and the total of tokens never changes |
| Runs.LateTickCloses | programs/leveraged-prediction/src/instructions/settle_position.rs:17-40 | a tick at or after the refund time closes its position whatever the oracle holds |
| Runs.PayingTickCloses | programs/leveraged-prediction/src/instructions/settle_position.rs:17-108 | a tick that decides to pay succeeds and ends its position |
| ChainTheorems.ReachableMarkets | programs/leveraged-prediction/src/instructions/open_position.rs:49-82 | in every reachable state: pool at least 6 times open collateral, counters equal to the sums over all users, at most 8 positions, epoch equity in bounds, each user within one percent |
| ChainTheorems.AnyOrderSettles | programs/leveraged-prediction/src/instructions/settle_position.rs:66-108 | from a reachable state any list of settlement attempts succeeds in any order at any prices, whether each pays or waits |
| ChainTheorems.AnyOrderCloses | programs/leveraged-prediction/src/instructions/settle_position.rs:17-108 | when each attempt is past its refund time or has a price inside its window, all succeed in any order and none of the positions stays live |
| ChainTheorems.SettlingAllEmptiesMarket | programs/leveraged-prediction/src/instructions/settle_position.rs:93-108 | a list that covers a market's live positions leaves it with no open collateral and no active position |
| ChainTheorems.EveryPositionEnds | programs/leveraged-prediction/src/instructions/settle_position.rs:3-117 | one creation event per position, one close event exactly once it is gone, gone after its 21st tick, and never more than 25 ticks |
| ChainTheorems.ScheduleEndsPosition | programs/leveraged-prediction/src/lib.rs:44-58 | any run in which 21 of the 25 ticks fire, interleaved with anything, closes the position with one close event |
| ChainTheorems.TickAlwaysCounts | programs/leveraged-prediction/src/instructions/settle_position.rs:3-16 | each due tick is used up, and one for an ended position changes nothing |
| ChainTheorems.CloseIsJustified | programs/leveraged-prediction/src/instructions/settle_position.rs:17-116 | a close moves exactly the amounts of its event, to the opening wallet or the user's escrow, and touches no other account; unless a refund after the window it paid what a price of the market's own feed, published in [expires_at, refund_at), makes due |
| ChainTheorems.NonceOpensOnce | programs/leveraged-prediction/src/instructions/open_position.rs:168-186 | two opens with one nonce in a market never both succeed, however far apart |
| ChainTheorems.LiveNamesUnique | programs/leveraged-prediction/src/instructions/open_position.rs:168-186 | a live (market, nonce) is in one list once, below the next nonce |
| Provenance.OpenRecords | programs/leveraged-prediction/src/instructions/open_position.rs:153-197 | the whole state after an open: task, position, tokens, market and event, at the oracle's price |
| Provenance.OpenedByCommand | programs/leveraged-prediction/src/instructions/open_position.rs:168-197 | every position of a run was opened by one command, at the price its oracle account held for the market's feed |
| Provenance.ClosedByTick | programs/leveraged-prediction/src/instructions/settle_position.rs:66-116 | every ended position was closed by one due tick of the run |
| Administration.ModeAlongRun | programs/leveraged-prediction/src/instructions/set_market_mode.rs:3-10 | over any run a market has the mode last set and the feed it was made with |
| Administration.SetModeExactly | programs/leveraged-prediction/src/instructions/set_market_mode.rs:3-10 | setting a mode changes that mode, logs it and does nothing else |
| Administration.MarketFromInit | programs/leveraged-prediction/src/instructions/initialize_market.rs:3-30 | every market of a run was made once, empty and open, and keeps the feed given then |
| Administration.CloseOnlyAdmitsNothing | programs/leveraged-prediction/src/instructions/open_position.rs:19-22 | while the last mode set is close-only no open and no deposit succeeds |
| Administration.TransferExactly | programs/leveraged-prediction/src/instructions/mod.rs:148-170 | in a reachable state a transfer succeeds if and only if the sender holds the amount, and moves exactly it |
| Administration.SendExactly | programs/leveraged-prediction/src/instructions/mod.rs:148-170 | a donation or any other send moves exactly its amount, if the wallet holds it |
| Administration.FeesExactly | programs/leveraged-prediction/src/instructions/withdraw_protocol_fees.rs:3-20 | fees are withdrawn if and only if the fee account holds them |
| Administration.ClaimExactly | programs/leveraged-prediction/src/instructions/claim_fallback_payout.rs:3-30 | a claim empties the user's escrow, and fails only when it is empty |
| Administration.FallbackIsClaimable | programs/leveraged-prediction/src/instructions/claim_fallback_payout.rs:3-30 | a payout that went to the escrow can be claimed in the next state |
| Administration.OnTimeScheduleCloses | programs/leveraged-prediction/src/lib.rs:44-58 | ticks one second apart from the open on are all due, and 21 of them close the position |
| RiskTheorems.BufferSurvives | programs/leveraged-prediction/src/math.rs:118-140 | after an open that saw pool P, until the next open or redemption there, pool is at least 6 times open collateral plus P/10 |
| RiskTheorems.SlackGrows | programs/leveraged-prediction/src/math.rs:118-140 | no other command shrinks pool minus 6 times open collateral |
| RiskTheorems.EpochIsFixed | programs/leveraged-prediction/src/instructions/open_position.rs:49-58 | no step between states with live positions changes the epoch equity |
| RiskTheorems.EpochAlongRun | programs/leveraged-prediction/src/instructions/open_position.rs:49-58 | nor does a run in which the market never falls idle |
| LpTheorems.LpValueProtected | programs/leveraged-prediction/src/instructions/execute_withdrawal.rs:14-52 | over any run of others' commands short of trading in the market, what an LP redeems never decreases |
| LpTheorems.UndelegationGate | programs/leveraged-prediction/src/state.rs:90-95 | undelegation is allowed if and only if the user owns no share of any market |
| LpTheorems.EventsTellHoldings | programs/leveraged-prediction/src/instructions/deposit_liquidity.rs:34-53 | the net of a user's liquidity events is the holding on chain |
| LpTheorems.LastLpTakesAll | programs/leveraged-prediction/src/instructions/execute_withdrawal.rs:14-52 | withdrawing every share empties the pool into the user's account |
| LpTheorems.UntradedMarketIsWhole | programs/leveraged-prediction/src/math.rs:78-88 | over any run without opens in the market its shares never outnumber its tokens, so redeeming all of them never overflows |
| Dilution.FullRedemptionCanFail | programs/leveraged-prediction/src/math.rs:78-88 | a reachable market, after at most 588 rounds of a lost trade and its refill and a donation, in which redeeming all shares overflows |
| LogExtraction.ProgramDataLogs | services/indexer/crates/indexer/src/ingest.rs:405-426 | the stack loop computes the line-by-line scan |
| LogExtraction.ExtractionInvertsPrinting | services/indexer/crates/indexer/src/ingest.rs:405-426 | for every printed call forest whose payloads and texts do not imitate the runtime's own lines, the scan returns exactly the target's payloads, in order, with their line indices, and an empty stack |
| LogExtraction.DataLineExactly | services/indexer/crates/indexer/src/ingest.rs:405-426 | a data line is read as data if and only if its payload does not imitate an invoke, success or failure line |
| LogExtraction.OneWordPayloads | services/indexer/crates/indexer/src/ingest.rs:405-426 | a payload without spaces does so if and only if it is "success", and then it ends the call |
| LogExtraction.PaddedFieldsAreData | services/indexer/crates/indexer/src/ingest.rs:405-426 | no line of any number of padded base64 fields does |
| Publication.PrintedHistoryPublishes | services/indexer/crates/indexer/src/ingest.rs:239-306 | a history whose landed logs are printed call trees emitting the chain's events is one that carries those events to the indexer |
| Publication.PrintedRunIsMirrored | services/indexer/crates/indexer/src/ingest.rs:67-203 | from the printed logs of a chain run to an index that is its image |
| Crawl.CollectSignatures | services/indexer/crates/indexer/src/ingest.rs:81-127 | the nested paging loop collects the newest min(history, limit, k + 33) entries for a cursor at k below the limit, and min(history, limit) otherwise; the cursor is found exactly in the first case |
| Crawl.ReachInNumbers | services/indexer/crates/indexer/src/ingest.rs:81-127 | that reach in numbers: the clamp at 10,000 and the 32 entries of overlap |
| Projection.RowsConverge | services/indexer/crates/storage/src/lib.rs:723-885 | any order and duplication of a position's events gives the canonical row of the events seen, refunded exactly for a refund and settled for any other close |
| Projection.DeliveryOrderIsInvisible | services/indexer/crates/storage/src/lib.rs:723-885 | two delivery sequences of the same events agree on the row, but for closed_at and updated_at |
| Projection.NeverReopens | services/indexer/crates/storage/src/lib.rs:723-885 | no row returns from settled or refunded to open |
| Projection.GuardsSkipOnlyTimes | services/indexer/crates/storage/src/lib.rs:762-885 | the guards skip exactly the updates that would change nothing but times |
| Projection.ClosingTimeStaysEmpty | services/indexer/crates/storage/src/lib.rs:808-885 | a redelivered close does not fill an empty closing time |
| Projection.TimesExactly | services/indexer/crates/storage/src/lib.rs:762-885 | the closing time and the update time after each upsert, exactly |
| Projection.FirstClosingTimeStays | services/indexer/crates/storage/src/lib.rs:808-885 | a closing time once known never changes |
| Storage.Tables.InsertRawObservation | services/indexer/crates/storage/src/lib.rs:678-721 | the transaction and instruction rows are inserted once |
| Storage.Tables.UpsertPositionCreated | services/indexer/crates/storage/src/lib.rs:723-806 | the guarded upsert is one delivery to the positions table |
| Storage.Tables.UpsertPositionClosed | services/indexer/crates/storage/src/lib.rs:808-885 | likewise for a close, after the BIGINT range checks |
| Storage.Tables.InsertLiquidityEvent | services/indexer/crates/storage/src/lib.rs:888-926 | a liquidity event is inserted once per transaction, line and kind |
| Storage.Tables.ApplyProjection | services/indexer/crates/storage/src/lib.rs:313-510 | each kind of event writes its own table and no other |
| Storage.KindsTellEvents | services/indexer/crates/storage/src/lib.rs:313-510 | each kind of event has its own label, which decides its table |
| Storage.FitsExactly | services/indexer/crates/storage/src/lib.rs:808-926 | an event is refused if and only if one of its token amounts reaches 2^63 |
| Storage.Database.ApplyBatch | services/indexer/crates/storage/src/lib.rs:235-256 | a batch of one transaction commits all of its observations and the cursor, or nothing |
| Storage.Database.AdvanceCursor | services/indexer/crates/storage/src/lib.rs:258-292 | the cursor moves unless it stands at a later slot |
| Storage.BatchStores | services/indexer/crates/storage/src/lib.rs:235-256 | a committed batch appends exactly its observations and keeps the table the projection of all deliveries |
| Storage.RedeliveryCountsOnce | services/indexer/crates/storage/src/lib.rs:888-925 | storing an event again changes no event table |
| Storage.StoreKeepsRecorded | services/indexer/crates/storage/src/lib.rs:678-721 | each event table keeps a row for everything delivered and nothing else |
| Ingestion.ApplyProgramLogs | services/indexer/crates/indexer/src/ingest.rs:239-306 | one log becomes one batch of its decoded events, or only moves the cursor |
| Ingestion.LogsWithStorage | services/indexer/crates/indexer/src/ingest.rs:205-237 | the live path stores a notification or skips a failed or older one, moving the cursor |
| Ingestion.RecentWithStorage | services/indexer/crates/indexer/src/ingest.rs:67-203 | the catch-up replays exactly the crawled prefix oldest first; a failure keeps a prefix of it |
| Ingestion.BailsExactlyWhenOutrun | services/indexer/crates/indexer/src/runtime.rs:281-289 | within the clamp the gap check fires if and only if the crawl did not reach the stored cursor |
| Ingestion.NeverBailsAboveClamp | services/indexer/crates/indexer/src/runtime.rs:281-289 | above the clamp it never fires |
| IngestionRuns.CrashSafe | services/indexer/crates/indexer/src/ingest.rs:134-189 | over every run with crashes, failures and reconnects in which no catch-up starts with an unstored event before its window, everything from the very first crawl's start to the frontier is stored |
| IngestionRuns.NeverOutrunNeverSkips | services/indexer/crates/indexer/src/ingest.rs:81-127 | it is enough that each crawl gets back to the cursor or, without one, to the first crawl's start |
| IngestionRuns.WindowInNumbers | services/indexer/crates/indexer/src/ingest.rs:81-127 | the crawl reaches a cursor exactly when it is fewer than the clamped limit away; otherwise its window is the newest limit transactions |
| IngestionRuns.SafeMeansCursorCovered | services/indexer/crates/indexer/src/ingest.rs:134-189 | then every ingestible transaction from the first crawl's start to the cursor has been stored |
| IngestionRuns.FinishedCatchupHasNoGap | services/indexer/crates/indexer/src/runtime.rs:272-289 | and a catch-up that ends without bailing leaves no gap from that start to its end |
| IngestionRuns.RunsAreFaithful | services/indexer/crates/indexer/src/ingest.rs:134-189 | in every run, outrun or not, the positions table projects the deliveries, and each was read from a transaction that succeeded and is of the current version |
| IngestionRuns.RunsAreRecorded | services/indexer/crates/storage/src/lib.rs:235-256 | in every run the event tables hold a row for each delivery and no other row |
| IngestionRuns.RunsCountOnce | services/indexer/crates/storage/src/lib.rs:888-926 | in every run delivering an event again changes no event table |
| IngestionGaps.CoverageExactly | services/indexer/crates/indexer/src/ingest.rs:134-189 | over every run: the cursor always stands for what is stored if and only if no step is about to store a transaction whose slot moves the cursor while an unstored event lies before it |
| IngestionGaps.GapDecides | services/indexer/crates/indexer/src/runtime.rs:272-289 | a catch-up interrupted after any number of replays leaves no gap if and only if none of them moves the cursor as it stood, or no unstored event lies between the cursor (or the first start) and the newest limit transactions |
| IngestionGaps.RestartIsSilent | services/indexer/crates/indexer/src/runtime.rs:272-289 | once the cursor stands at the newest transaction the next catch-up reaches it and does not bail |
| IngestionGaps.ColdCrawlIsUnchecked | services/indexer/crates/indexer/src/runtime.rs:281-289 | without a cursor the gap check never fires |
| IngestionGaps.SilentGap | services/indexer/crates/indexer/src/runtime.rs:272-289 | a concrete run that bails, restarts, goes live and never stores one event |
| IngestionGaps.ColdGap | services/indexer/crates/indexer/src/runtime.rs:272-289 | a concrete run that never bails, goes live and never stores one event after the first crawl's start |
| Replay.ReplaySucceedsExactly | services/indexer/crates/indexer/src/ingest.rs:134-189 | a replay succeeds, whatever the database holds, if and only if the transaction is skipped or its slot and amounts fit BIGINT |
| Replay.ReplayCursor | services/indexer/crates/storage/src/lib.rs:964-992 | the cursor moves to exactly those replayed transactions that succeeded, have metadata and are not at an earlier slot |
| Replay.NotifySucceedsExactly | services/indexer/crates/indexer/src/ingest.rs:205-237 | a notification is stored if and only if its slot fits and, when the transaction landed, its amounts do |
| Replay.BatchSucceedsExactly | services/indexer/crates/storage/src/lib.rs:235-256 | a batch is stored if and only if it belongs to one transaction and its amounts fit |
| Replay.StoredTimes | services/indexer/crates/indexer/src/ingest.rs:205-237 | a catch-up stores block times, a live session the time of observation |
| IngestionProgress.ProgressExactly | services/indexer/crates/indexer/src/runtime.rs:272-289 | from a restart some steps reach the end of the history if and only if the next window can be stored and, when its gap check would fire, moves the cursor |
| IngestionProgress.LiveProgressExactly | services/indexer/crates/indexer/src/runtime.rs:330-362 | a live session gets through its notifications to the end of the history if and only if each of them can be stored |
| EndToEnd.IndexMirrorsChain | services/indexer/crates/storage/src/lib.rs:313-368 | for every market run delivered in any order with repetitions, among failed transactions whose logs may carry events: a row exactly per opened position, with what was opened and when, open exactly while live, refunded exactly for a refund and settled otherwise, with the amounts the chain emitted |
| EndToEnd.PipelineMirrorsChain | services/indexer/crates/indexer/src/ingest.rs:67-203 | the same through any run of the indexer that skipped nothing and has caught up |
| Provenance.IndexTellsTheClose | services/indexer/crates/storage/src/lib.rs:808-885 | a mirrored row of an ended position is refunded if and only if its closing tick came at or after the refund time, shows what left the pool in that tick, and the oracle price it was opened at |
| LiquidityIndex.TablesHoldEachOnce | services/indexer/crates/storage/src/lib.rs:888-962 | each event the chain published is in its table exactly once, under its own key, and nothing else is |
| LiquidityIndex.ClientSeesHoldings | app/lib/liquidity-indexer.ts:227-261 | for whatever answer the API gives after any chain and indexer run: the client is shown the user's events, its summary is defined if and only if no prefix of that order redeems more than it deposits, and then it shows the shares the chain holds |
| LiquidityIndex.ApiKeepsHistoryOrder | services/indexer/crates/api/src/lib.rs:977-1008 | the answer is in the order of the history if and only if time, signature and path text ascend along it, and then the summary is defined and right |
| LiquidityIndex.TimesAndLinesAscend | services/indexer/crates/api/src/lib.rs:977-1008 | they do when times never fall, differ between transactions, and line numbers within a transaction have one length |
| LiquidityApi.PathOrder | services/indexer/crates/indexer/src/ingest.rs:249-250 | log paths of different lengths compare as text by the leading digits of the longer one |
| LiquidityApi.SamePathOrder | services/indexer/crates/indexer/src/ingest.rs:249-250 | log paths of one length compare as their numbers |
| LiquidityApi.UntimedIsEpoch | services/indexer/crates/api/src/lib.rs:977-1008 | rows without a time sort as the epoch, and within one transaction the path text decides |
| LiquidityApi.AnswerExists | services/indexer/crates/api/src/lib.rs:977-1008 | the API's order always has an answer |
| LiquidityApi.SortedOnce | services/indexer/crates/api/src/lib.rs:977-1008 | and only one |
| LiquidityOrder.ChainAccepts | programs/leveraged-prediction/src/instructions/execute_withdrawal.rs:3-60 | an open market accepts a deposit, a request and its execution one after the other |
| LiquidityOrder.ApiOrderBreaksSummary | app/lib/liquidity-indexer.ts:227-261 | when they share a transaction on log lines 6, 11 and 20, every answer makes the client throw although the index is right and the user holds shares |
| LiquidityOrder.SuchALogExists | services/indexer/crates/indexer/src/ingest.rs:405-426 | and such a log can be printed |
| Journaling.LogStep | programs/leveraged-prediction/src/instructions/settle_position.rs:109-116 | a command emits at most one event, whose amounts are within the tokens there are, but for a request's minimum |
| Journaling.RequestsTakeAnyMinimum | programs/leveraged-prediction/src/instructions/request_withdrawal.rs:3-26 | a request succeeds exactly by shares and pending, whatever its minimum |
| PipelineProgress.RefusedIsNeverPassed | services/indexer/crates/storage/src/lib.rs:888-926 | in a run that skips nothing neither the cursor nor a live session passes a transaction with an amount beyond BIGINT |
| PipelineProgress.OnlyMinimumsExceed | programs/leveraged-prediction/src/instructions/request_withdrawal.rs:3-26 | while the tokens fit BIGINT, all events fit if and only if the minimums of the requests do |
| PipelineProgress.RefusedMinimumIsAccepted | programs/leveraged-prediction/src/instructions/request_withdrawal.rs:3-26 | any holder without a pending withdrawal can emit a request whose minimum does not fit |
| PipelineProgress.PipelineProgressExactly | services/indexer/crates/indexer/src/runtime.rs:272-289 | after any chain run a restarted indexer that skipped nothing and reaches its cursor can catch up if and only if every requested minimum fits |
| PipelineProgress.PipelineReachesMirror | services/indexer/crates/indexer/src/runtime.rs:272-289 | and then one more session makes the index the image of the chain |
| Quotes.AssetQuoteAgrees | app/lib/liquidity.ts:53-60 | whenever the program answers, the client quotes the same assets |
| Quotes.ShareQuoteAgrees | app/lib/liquidity.ts:62-71 | whenever the program answers, the client quotes the same shares |
| Quotes.RoundUpIsLeast | app/lib/liquidity.ts:73-80 | the least share count whose part of the pool is the wanted assets, and none without assets, pool or shares |
| Quotes.RoundUpRedeems | app/lib/liquidity.ts:73-80 | a count redeems at least the wanted assets if and only if it is at least that one |
| Quotes.NothingQuoted | app/lib/liquidity.ts:53-71 | nothing is quoted for what is not an amount |
| Quotes.RemainderExactly | programs/leveraged-prediction/src/math.rs:142-155 | which redemptions the remainder check accepts, as one product inequality |
| Quotes.RemovableIsAccepted | app/lib/liquidity.ts:82-94 | every count up to the client's maximum passes the remainder check in an open market |
| Quotes.MaximumExactly | app/lib/liquidity.ts:82-94 | what is offered, exactly: none without arguments or at the minimum, all of the user's shares in a close-only market, and else as many of them as leave the minimum |
| Quotes.OfferIsWithinShares | app/lib/liquidity.ts:82-94 | an offered count is within the user's shares and its request is accepted |
| Quotes.MaximumIsNotTight | app/lib/liquidity.ts:82-94 | a concrete market where more would pass |
| HistoryFold.SummarizeLiquidityHistory | app/lib/liquidity-indexer.ts:227-261 | the loop folds the reversed list, or throws where the fold does |
| HistoryFold.CostBasisBounded | app/lib/liquidity-indexer.ts:227-261 | cost basis never exceeds all deposits and is zero without shares |
| HistoryFold.BasisExactly | app/lib/liquidity-indexer.ts:227-261 | a deposit raises the basis by its amount, a partial redemption leaves the remaining shares' part rounded down, a full one nothing |
| HistoryFold.BasisOfDeposits | app/lib/liquidity-indexer.ts:227-261 | without executions the basis is the total of the deposits |
| HistoryFold.DepositsMatchChain | programs/leveraged-prediction/src/instructions/deposit_liquidity.rs:34-53 | that total is what the chain's events say was deposited |
| HistoryFold.FoldSucceedsExactly | app/lib/liquidity-indexer.ts:227-261 | in whatever order events come, the fold is defined if and only if deposits carry amounts and no prefix redeems more than it deposits, and then it counts the shares left |
| HistoryFold.FoldsAgree | app/lib/liquidity-indexer.ts:227-261 | two orders of the same events that both fold end with the same shares |
| HistoryFold.FoldMatchesChain | app/lib/liquidity-indexer.ts:227-261 | on the events of any chain run the fold never throws and ends with the on-chain shares |
| HistoryFold.SummaryMatchesChain | app/lib/liquidity-indexer.ts:227-261 | the same for the reverse of a run's events, the order the client supposes |
| WalletValidation.SameIsEqual | app/lib/live/transaction-flow.ts:357-375 | the field-by-field comparison is equality |
| WalletValidation.ValidateWalletSignedTransaction | app/lib/live/transaction-flow.ts:383-466 | exactly when the result is unmodified, modified or a rejection, and the limit and price it reports |
| WalletValidation.MatchInstructions | app/lib/live/transaction-flow.ts:401-416 | the one-pass loop computes the greedy match |
| WalletValidation.CheckAdditions | app/lib/live/transaction-flow.ts:417-465 | the second loop accepts exactly one or two account-free in-range instructions of different kinds |
| WalletValidation.GreedySound | app/lib/live/transaction-flow.ts:401-416 | what the match accepts is an interleaving with what it leaves over |
| WalletValidation.GreedyComplete | app/lib/live/transaction-flow.ts:401-416 | any interleaving with compute-budget additions is accepted, leaving a rearrangement of them |
| WalletValidation.AcceptsExactlyInterleavings | app/lib/live/transaction-flow.ts:401-465 | acceptance if and only if some interleaving with allowed additions exists |

## Left out

- Account validation: derived addresses, hashing, ownership, signers and the settlement task identifier. Pool, fee and escrow accounts are taken to be the canonical ones, distinct from every wallet.
- Delegation and scheduler calls; whether the scheduler accepts a task is an argument of an open, and a settlement runs with the accounts and salt it was scheduled with.
- Frozen or foreign token accounts appear only as the verdict on the user's payout account; minting, burning and lamports are not modelled. The total of tokens fits 64 bits, as one mint guarantees.
- The user's token delegation is an argument of each open; its decrease by the transfer is not carried to the next.
- Handlers.OpenPosition: promises nothing about the accounts after an error, because the runtime rolls the instruction back; the state machine keeps the old state. The same holds for the other handlers.
- ChainTheorems.ScheduleEndsPosition: assumes the scheduler fires the ticks; how it does is outside the program.
- LpTheorems.LpValueProtected: trading in the market is excluded, since its results are the LPs' profit and loss, and so are the LP's own deposits and redemptions.
- Projection.RowsConverge: the columns closed_at and updated_at depend on the delivery and are excluded; at most one creation and one close per position is assumed, which EndToEnd derives from the program.
- IngestionRuns.CrashSafe: supposes that no catch-up starts with an unstored event before its window, which is false of some runs (SilentGap, ColdGap); what lies before the first crawl's window is promised nothing. Notifications arrive in history order, the slot of a notification is the transaction's, and one source is followed.
- EndToEnd.PipelineMirrorsChain: a landed transaction that carries events but that the node serves without metadata is never stored by a catch-up, so histories with one are excluded.
- LiquidityIndex.ClientSeesHoldings: the rows are read while no new one arrives, so that the API's pages make up one answer; the client's limit on pages is not modelled. Signatures are numbered in the order of their text, and all times count one unit.
- Dead letters, tracked accounts, legacy transactions, snapshots and the leaderboard views of the database; several sources, whose liquidity keys include the source.
- RPC failures are crashes of the process; a transaction the node serves without metadata is skipped, as the source skips it.
- LogExtraction.ExtractionInvertsPrinting: payloads, free text and failure reasons that imitate the runtime's own lines are excluded; base64 and event decoding are one function parameter of Ingestion.
- WalletValidation.ValidateWalletSignedTransaction: the serialized message is compared as opaque bytes, and compute-budget decoding is a parameter; the text of errors is not modelled.
- HistoryFold.SummarizeLiquidityHistory: reading and validating the API's JSON and its paging.
- User interface, formatting, the minimum-guard rounding of quotes, sessions, faucet, routing, Axum handlers and metrics.
