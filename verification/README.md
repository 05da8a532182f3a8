# A verified model of the launch curve, the generated markets, the indexers and the agent loop

This project models the parts of the repository that carry state or arithmetic, and proves what
they are for. One module per component:

| module | component |
|---|---|
| `Curve`, `CurvePool`, `CurveLaunch` | the multi-range launch curve of `curve.ts`: trading it, analysing it, building it |
| `RivalLedger`, `RivalHook`, `RivalRuns`, `RivalHistory` | the two Rival contracts, every run of them together, and every run told from its actions alone |
| `Regent` | the hourly leader's reward |
| `FeeJoin` | attaching an engine's fees to the swaps that paid them |
| `BoostLedger`, `BoostHistory` | what a market's buybacks cost and who paid; its switches and rows told from the log |
| `AgentLedger`, `AgentFeed` | per-agent treasury and revenue rows; the switch and the activity feed told from the log |
| `AgentLoop`, `AgentHistory`, `ReplyText` | the bounded loop between a model and its tools, what a finished run says of itself, and the text it hands over |
| `FloodFill`, `InkBox` | keying out a background; cutting a mark out of a lockup |
| `IcoPacker`, `PngChunk`, `Bytes` | the icon container and the PNG chunk with its checksum |
| `WorkerPool` | a bounded number of builds in flight, stopping once the account is dry |
| `RealSums`, `SetSums`, `RivalSums`, `Basics` | sums, shares rounded down, small common definitions |

Code that works by changing things step by step is modelled as classes and methods (`Pool`,
`RivalRounds`, `RivalHookContract`, `RegentHook`, `AgenIndexer`, `InstantIndexer`, `AgentIndexer`,
`KeyOutBackground`, `PackIco`, `TableCrc`, `Run`, ...). Each is proved equal to a specification on
values, and the properties are proved of that specification over every input, run or log. The
specifications of `RivalRuns`, `Regent`, `FeeJoin`, `BoostLedger` and `AgentLedger` carry or scan the
history itself, so a stored figure is compared with what happened and not with another stored figure.
`RivalHistory`, `BoostHistory`, `AgentFeed` and `AgentHistory` go further: they say what is stored, paid or
answered from the inputs alone, without the specification's own steps.

Modelling choices a reader should know:

- `Curve` works on exact reals, and on square roots: a price is the square of the pool's `root`, and a
  range's bounds are the roots of its price bounds. The target of `CostToRaise` and `SaleToDrop` is
  given as a signed root, since a drop of more than 100% names a negative price.
- Solidity's `uint256` is `nat`: where the contract would revert on overflow the model does not. Times
  are arguments, and need not increase unless a statement says so.
- A fee in `FeeJoin` also carries the log it was charged in, which the swap table does not keep. It tells two
  fees of equal rate and amount apart, so that a row with another's fee is wrong even when the figures agree.
- A database table is a map or, when rows are only ever inserted, a sequence. A handler is one atomic
  step, logs arrive in order, and no two logs share an id. A handler that throws ends the run.
- Strings are UTF-16 code units. The model and the tools of the agent loop are arbitrary functions; a
  tool's outcome may differ from turn to turn. A tool counts as run even when it times out, and an
  execution that timed out counts as failed, as the loop treats it.
- `WorkerPool` cuts each worker's code at its awaits, and a run is any interleaving of the pieces.

Where the code does not do what its comments or callers might suggest, the model follows the code, and
a theorem says exactly when the two agree:

- The fee join tells a fee's swap by its amounts, which is documented as exact. It fails in two ways. A fee
  charged before its swap can measure an earlier swap's legs, when that one was not charged
  (`FeeJoin.AFeeCanBeMistaken`). And a fee charged after its swap measures the amount the trader named
  (`packages/contracts/src/agen/engine/AgenEngineHook.sol:646-647`), which is not the swap's leg when the pool
  takes only part of it (`FeeJoin.AFeeCanMissItsSwap`). The join is exact if and only if neither happens
  (`FeeJoin.ExactIffJoinable`, and over whole logs `FeeJoin.JoinIsExact`).
- The Boost handlers expect a routed fee to follow its own funding, and then the donated figure is exact.
  `packages/contracts/src/BoostEscrow.sol:598-599` emits the two in the other order. Then the figure is
  the top-ups if and only if no routed fee exceeded the top-ups before it; one routed fee alone reads as
  a donation (`BoostLedger.DonatedInTheEscrowsOrder`, `BoostLedger.AFeeCanReadAsADonation`,
  and over whole logs `BoostLedger.EveryLogsDonations`).
- A fee a vault credits before its market is known is documented as corrected by the next trade. The handler
  only adds, so it is missing for good: the figures are all the vault credited if and only if it had credited
  nothing by then (`BoostLedger.EveryLogsFees`).
- `RivalRounds.record` does not look at `settled`, so a settled round can be changed by a direct call
  (`RivalLedger.RecordingIsUnguarded`). The hook never makes one (`RivalRuns.SettledRoundsAreFrozen`).
- `RegentHook` drops a pool whose winner is nobody, which a buy of zero amount brings about
  (`Regent.AnEmptyBuyLosesItsFee`, `Regent.BuyConservesIff`).
- An image's size survives an icon file exactly when it is from 1 to 256 (`IcoPacker.IcoRoundTrip`).
- A reply fits its limit exactly when the limit is at least 1 (`ReplyText.RepliesFit`).
- The loop's comment says that on the last turn whatever a tool turn wrote is taken as the answer. A tool
  turn has written nothing by then, so the answer is always silence (`AgentLoop.LastTurnToolsAreSilent`).

Check everything with `dafny verify dfyconfig.toml`.

## Model

| member | source | states |
|---|---|---|
| Curve.BuyDetermined | apps/agen/scripts/curve.ts:213-237 | the potentials leave a buy no freedom: one final price and one payout, whatever number of ranges is crossed |
| Curve.SellDetermined | apps/agen/scripts/curve.ts:240-267 | the same for a sale |
| Curve.SellUndoesBuy | apps/agen/scripts/curve.ts:459-471 | selling what a buy released returns the stake exactly and restores the price |
| Curve.BuyUndoesSell | apps/agen/scripts/curve.ts:213-267 | buying back with what a sale paid restores the price and returns the tokens |
| Curve.PotentialsMonotone | apps/agen/scripts/curve.ts:34-41 | quote held rises and tokens held fall with the price, and one is constant exactly when the other is |
| Curve.StrictlyRising | apps/agen/scripts/curve.ts:34-41 | inside a contiguous geometry both move strictly |
| Curve.DeterminedByQuote | apps/agen/scripts/curve.ts:34-41 | so the quote held determines the price |
| Curve.BuyPaysBetweenSpotPrices | apps/agen/scripts/curve.ts:213-237 | a buy's average price lies between its first and last spot price, across ranges |
| Curve.SellPaysBetweenSpotPrices | apps/agen/scripts/curve.ts:240-267 | and so does a sale's |
| CurvePool.Pool.constructor | apps/agen/scripts/curve.ts:187-190 | a pool opens at the given price on the given ranges |
| CurvePool.Pool.Clone | apps/agen/scripts/curve.ts:206-210 | a fresh pool in the same state |
| CurvePool.Pool.Buy | apps/agen/scripts/curve.ts:213-237 | moves to the price where the quote held has risen by the stake, up to capacity, and pays the difference in tokens held |
| CurvePool.Pool.Sell | apps/agen/scripts/curve.ts:240-267 | moves to the price where the tokens held have risen by the sale, up to those placed, and pays the difference in quote held |
| CurvePool.Pool.CostToRaise | apps/agen/scripts/curve.ts:270-284 | the quote held between here and the target, or nothing for a target below |
| CurvePool.Pool.SaleToDrop | apps/agen/scripts/curve.ts:287-304 | the quote held between the target and here, without touching this pool |
| CurvePool.BuyLandsOnTarget | apps/agen/scripts/curve.ts:270-284 | buying for the stated cost lands exactly on the target price |
| CurvePool.TargetIsThePercentage | apps/agen/scripts/curve.ts:271-271 | a target's price is the present one changed by the percentage |
| CurvePool.FamiliarTargets | apps/agen/scripts/curve.ts:271-289 | nothing per cent is here and nowhere else, 300 doubles the root, a fall of 75 halves it |
| CurvePool.CheckReversible | apps/agen/scripts/curve.ts:459-471 | the script's own round-trip check never fails within capacity |
| CurvePool.RunConserves | apps/agen/scripts/curve.ts:213-267 | over every run within capacity, both sides held are what was held plus what came in less what went out |
| CurvePool.RunNeverPaysOutMore | apps/agen/scripts/curve.ts:213-267 | no run, however greedy, pays out more of either side than was held at its start and paid in |
| CurvePool.BuyInPieces | apps/agen/scripts/curve.ts:213-237 | a buy split into any pieces is the same buy |
| CurvePool.SellInPieces | apps/agen/scripts/curve.ts:240-267 | and a sale the same sale |
| CurveLaunch.BuildSucceedsIff | apps/agen/scripts/curve.ts:139-154 | a launch is built exactly when one band is open and the others leave supply for it |
| CurveLaunch.BuildPlacesTheSupply | apps/agen/scripts/curve.ts:156-177 | fractions sum to one and token amounts to the supply |
| CurveLaunch.LiquidityIsDepth | apps/agen/scripts/curve.ts:156-175 | a band's liquidity is its depth in units of the single-range launch, whatever its bounds |
| CurveLaunch.LaunchOpensTokenOnly | apps/agen/scripts/curve.ts:139-178 | contiguous bands build a contiguous geometry that opens holding the whole supply and no quote |
| CurveLaunch.LaunchIsNeverDrained | apps/agen/scripts/curve.ts:139-267 | from a launch's opening no run takes out more quote than was put in, and within capacity tokens held and outside are the supply |
| RivalLedger.RivalRounds.constructor | apps/agen/scripts/seed-rival.ts:80-87 | an empty ledger |
| RivalLedger.RivalRounds.Record | apps/agen/scripts/seed-rival.ts:112-127 | the trade's volume, buyer's amount and contribution are added to the round |
| RivalLedger.RivalRounds.Settle | apps/agen/scripts/seed-rival.ts:131-158 | closes a round once, deciding winner, distributable, carry-over and reserve |
| RivalLedger.RivalRounds.Claim | apps/agen/scripts/seed-rival.ts:161-184 | pays a wallet's owed share, or reverts for one of the three reasons |
| RivalLedger.RecordingIsUnguarded | apps/agen/scripts/seed-rival.ts:112-127 | recording changes its round whatever state it is in, unless it adds nothing |
| RivalLedger.RecordingAddsUp | apps/agen/scripts/seed-rival.ts:118-123 | the wallets' amounts keep adding up to the round's buy volume |
| RivalHook.RivalHookContract.constructor | apps/agen/scripts/seed-rival.ts:232-236 | round zero opens at deployment with no streak |
| RivalHook.RivalHookContract.SettleIfDue | apps/agen/scripts/seed-rival.ts:249-283 | after a quarter of an hour settles the round in the ledger and opens the next |
| RivalHook.RivalHookContract.OnTrade | apps/agen/scripts/seed-rival.ts:239-296 | settles if due, records against the open round, and charges by the momentum then armed |
| RivalHook.WinningRunIsMaximal | apps/agen/scripts/seed-rival.ts:260-269 | the history's run is the longest stretch ending now won by one side |
| RivalHook.StreakStep | apps/agen/scripts/seed-rival.ts:254-278 | one more round keeps streak and momentum what the history says: length modulo three, armed at multiples of three |
| RivalHook.HalfFeeAfterEveryThirdWin | apps/agen/scripts/seed-rival.ts:239-243 | a side pays half exactly after every third win in a row |
| RivalRuns.EveryRunKeeps | apps/agen/scripts/seed-rival.ts:112-296 | the joint invariant of both contracts and their history holds in every run |
| RivalRuns.RoundsAreDecidedByTheirTrades | apps/agen/scripts/seed-rival.ts:131-157 | a round is settled exactly when below the current one, for the side its recorded trades decide |
| RivalRuns.ContributionsAreConserved | apps/agen/scripts/seed-rival.ts:125-154 | every contribution ever made is carried over, reserved, distributable, or in the open pool |
| RivalRuns.MomentumFollowsHistory | apps/agen/scripts/seed-rival.ts:239-278 | in every run the fee is 5000 ppm exactly for the side whose winning run is a multiple of three, and 10000 otherwise |
| RivalRuns.PaidAndOwedAreShares | apps/agen/scripts/seed-rival.ts:161-184 | paid and still owed are together exactly the buyers' shares |
| RivalRuns.SharesFitTheRound | apps/agen/scripts/seed-rival.ts:161-169 | shares rounded down fit the round and strand less than a unit a buyer |
| RivalRuns.ClaimsAreSolvent | apps/agen/scripts/seed-rival.ts:161-184 | in every run and round, paid plus owed never exceed what is distributable, nor fall short by one unit a buyer |
| RivalRuns.NoWalletIsPaidTwice | apps/agen/scripts/seed-rival.ts:174-183 | no two payouts of a run share round and wallet |
| RivalRuns.SettledRoundsAreFrozen | apps/agen/scripts/seed-rival.ts:249-296 | once settled, a round and its buyers never change, though recording is unguarded |
| RivalHistory.RoundsFollowTheClock | apps/agen/scripts/seed-rival.ts:249-283 | in every run the open round's number and start are those of the closings the action times alone give: each the first action 900 seconds or more after the one before; trades are recorded in the round then open |
| RivalHistory.RoundsLastFifteenMinutes | apps/agen/scripts/seed-rival.ts:250-250 | successive closings are at least 900 seconds apart |
| RivalHistory.PotsFollowTheTrades | apps/agen/scripts/seed-rival.ts:131-157 | carry-over, reserve and distributable in every run are those of the trades' volumes and contributions |
| RivalHistory.ClaimsArePaidIff | apps/agen/scripts/seed-rival.ts:161-184 | a claim appends its payout if and only if buyers won the closed round, the floored share of its pot is positive, and no earlier payout has that round and wallet; otherwise which of the three errors |
| RivalHistory.FeesFollowTheTrades | apps/agen/scripts/seed-rival.ts:239-278 | the fee of every run from its trades' volumes alone |
| RivalSums.SplittingGainsNothing | apps/agen/scripts/seed-rival.ts:168 | splitting a holding over n wallets earns at most the whole share and less than n units below it |
| Regent.RegentHook.constructor | apps/agen/scripts/seed-epoch.ts:48-51 | the first epoch starts at deployment |
| Regent.RegentHook.OnBuy | apps/agen/scripts/seed-epoch.ts:53-66 | settles if due, then adds a fifth of the fee and takes the lead if larger |
| Regent.RegentHook.Claim | apps/agen/scripts/seed-epoch.ts:68-71 | hands over the balance and zeroes it |
| Regent.RegentHook.SettleIfDue | apps/agen/scripts/seed-epoch.ts:73-88 | ends an epoch by the hour or by quiet, crediting its winner |
| Regent.EveryRunAccounts | apps/agen/scripts/seed-epoch.ts:53-88 | credited, paid, pooled and dropped are together a fifth of every fee, rounded down |
| Regent.LeaderIsFirstToTheLargest | apps/agen/scripts/seed-epoch.ts:62-65 | the stored leader is the first to reach the epoch's largest single buy |
| Regent.ClockFollowsTheBuys | apps/agen/scripts/seed-epoch.ts:53-88 | in every run the epoch's number, start and buys are those of the buys' times: ended 3600 after its start or 900 after the latest buy |
| Regent.BalancesFollowTheBuys | apps/agen/scripts/seed-epoch.ts:53-88 | what an account may claim is the rewards of the ended epochs that paid it since it last claimed |
| Regent.EndingEpochsPayOneAccount | apps/agen/scripts/seed-epoch.ts:73-88 | an ending epoch pays all its rewards to that leader at the hour, otherwise to its last buyer, and nobody else gains |
| Regent.GenuineBuysAreNeverDropped | apps/agen/scripts/seed-epoch.ts:53-88 | with positive buys by somebody nothing is dropped, and a pool always has a leader |
| Regent.BuyConservesIff | apps/agen/scripts/seed-epoch.ts:78-83 | a buy conserves the money exactly unless it settles a pool whose winner is nobody |
| Regent.AnEmptyBuyLosesItsFee | apps/agen/scripts/seed-epoch.ts:53-88 | a run in which that happens |
| FeeJoin.AgenIndexer.OnFeeTaken | apps/indexer/src/agen-engine.ts:303-360 | attaches a fee to the nearest earlier swap it measured, otherwise parks it |
| FeeJoin.AgenIndexer.ClaimPendingFee | apps/indexer/src/agen-engine.ts:373-400 | takes the nearest parked fee of the pool out of the table |
| FeeJoin.AgenIndexer.IndexAgenSwap | apps/indexer/src/agen.ts:190-257 | writes a followed pool's swap with its claimed fee and grows the market's totals |
| FeeJoin.NearestSwapIsLast | apps/indexer/src/agen-engine.ts:311-328 | the query finds the pool's last row of the transaction before the log |
| FeeJoin.NearestPendingIsLast | apps/indexer/src/agen-engine.ts:377-392 | and its last parked fee |
| FeeJoin.PoolsAreIndependent | apps/indexer/src/agen-engine.ts:303-400 | however pools interleave, a followed pool's tables depend on its own events alone |
| FeeJoin.OtherTransactionsUntouched | apps/indexer/src/agen-engine.ts:320-326 | a transaction's fees never reach another transaction's rows |
| FeeJoin.FeesAreConserved | apps/indexer/src/agen-engine.ts:367-370 | every fee taken is attached to one row or parked in one place, and so their sums agree, whatever the log |
| FeeJoin.ChargedRowsStay | apps/indexer/src/agen-engine.ts:332-344 | a row that has its fee never changes again |
| FeeJoin.RowsTakeOnlyWhatIsEmitted | apps/indexer/src/agen-engine.ts:332-344 | a row never takes a fee that no remaining event carries |
| FeeJoin.UnmistakenFeesFindTheirSwap | apps/indexer/src/agen-engine.ts:283-299 | when every late fee measures its swap and no early one another's, each call's row has its own fee and nothing stays parked |
| FeeJoin.UnmeasuredFeeIsParked | apps/indexer/src/agen-engine.ts:332-359 | a late fee that does not measure its swap is parked, and the row stays without one |
| FeeJoin.WrongRowsStayWrong | apps/indexer/src/agen-engine.ts:303-400 | once a row lacks its own fee, nothing later puts it right |
| FeeJoin.ExactIffJoinable | apps/indexer/src/agen-engine.ts:286-299 | for all swap calls the join is exact if and only if every late fee measures its swap and no early fee the uncharged swap right before it |
| FeeJoin.AFeeCanBeMistaken | apps/indexer/src/agen-engine.ts:288-292 | a sale too small to return a unit, and a buy whose fee lands on it |
| FeeJoin.AFeeCanMissItsSwap | packages/contracts/src/agen/engine/AgenEngineHook.sol:646-653 | a partly filled sale whose fee lands on the next sale |
| FeeJoin.JoinIsExact | apps/indexer/src/agen-engine.ts:303-400 | over any log with other pools interleaved, the tables hold exactly each call's own fee and nothing parked if and only if the calls are joinable, and then row fees sum to the fees taken |
| FeeJoin.UnfollowedFeesStayParked | apps/indexer/src/agen-engine.ts:346-351 | a pool that is not followed gets no rows and keeps all its fees parked |
| FeeJoin.TotalsFollowTheSwaps | apps/indexer/src/agen.ts:246-254 | a market's count and volumes grow by exactly its own swaps |
| FeeJoin.TablesTellTheLog | apps/indexer/src/agen.ts:190-242 | after any log each followed swap has a row that gives its signed legs back with its direction, there are no other rows, and every fee in the tables has the rate and amount of a charge of its pool |
| BoostLedger.InstantIndexer.constructor | apps/instant-indexer/src/instant.ts:112-178 | empty tables |
| BoostLedger.InstantIndexer.OnMarketCreated | apps/instant-indexer/src/instant.ts:112-178 | a market starts with every Boost and fee figure at zero, and a pool already there throws |
| BoostLedger.InstantIndexer.OnMarketEnrolled | apps/instant-indexer/src/instant.ts:192-199 | sets the escrow of a market this feed knows |
| BoostLedger.InstantIndexer.MarketByToken | apps/instant-indexer/src/instant.ts:336-344 | finds a market with the token if there is one |
| BoostLedger.InstantIndexer.UpdateByToken | apps/instant-indexer/src/instant.ts:202-248 | the switch, lock, funding and routing handlers change one row |
| BoostLedger.InstantIndexer.OnBoostFunded | apps/instant-indexer/src/instant.ts:218-227 | only funding by Agen counts as donated |
| BoostLedger.InstantIndexer.OnBoostExecuted | apps/instant-indexer/src/instant.ts:258-292 | inserts a buyback row and grows the market's Boost figures |
| BoostLedger.InstantIndexer.OnAccrued | apps/instant-indexer/src/instant.ts:309-324 | adds a vault's credited fees to its market |
| BoostLedger.InstantIndexer.IndexInstantSwap | apps/instant-indexer/src/instant.ts:382-430 | inserts a swap row and grows the market's volume |
| BoostLedger.MarketsAreIndependent | apps/instant-indexer/src/instant.ts:336-359 | a market's row depends on its own events alone, whatever else the log holds |
| BoostLedger.RowsAreTheirHistories | apps/instant-indexer/src/instant.ts:112-359 | in every log the markets are those it created, each row what its own events since then make of a new one |
| BoostLedger.FiguresAreTheirRows | apps/instant-indexer/src/instant.ts:258-292 | in every run a market's Boost and swap figures are the sums over its own rows, and sunk is the last reported |
| BoostLedger.AgenIsAccountedFor | apps/instant-indexer/src/instant.ts:218-248 | routed plus donated cover all Agen funded, exactly if and only if routing never outran funding |
| BoostLedger.DonatedIsTheLargestTail | apps/instant-indexer/src/instant.ts:239-248 | the clamped figure is the largest net contribution over any ending stretch |
| BoostLedger.FeesAreTheAccruals | apps/instant-indexer/src/instant.ts:309-324 | fee figures are the sums of what the vault credited |
| BoostLedger.DonatedIsTheTopUps | apps/instant-indexer/src/instant.ts:221-223 | if each routed fee follows its own funding, donated is exactly the voluntary contributions |
| BoostLedger.DonatedInTheEscrowsOrder | packages/contracts/src/BoostEscrow.sol:598-599 | in the escrow's own order donated is never too small, and exact if and only if no fee exceeded the top-ups before it |
| BoostLedger.AFeeCanReadAsADonation | packages/contracts/src/BoostEscrow.sol:584-600 | one routed fee is reported as a donation of its amount |
| BoostLedger.EveryLogAccountsForAgen | apps/instant-indexer/src/instant.ts:218-248 | the accounting of Agen's money in every log, by each market's history |
| BoostLedger.EveryLogsDonations | apps/instant-indexer/src/instant.ts:218-248 | in every log donated is at least the top-ups, and equal exactly when funding comes first or fees stay within earlier top-ups |
| BoostLedger.EveryLogsFees | apps/instant-indexer/src/instant.ts:303-324 | in every log the fee figures are the accruals since creation, and all the vault's accruals if and only if those before it add nothing |
| BoostHistory.SwitchesFollowTheLog | apps/instant-indexer/src/instant.ts:192-248 | in every log a market's switch is the last one thrown, locked and captured say whether that ever happened, and its escrow is the last enrolled or else the first to buy |
| BoostHistory.RowsTellTheLog | apps/instant-indexer/src/instant.ts:258-276 | the stored buybacks and swaps are the log's, in order and figure for figure, each under the market there was by then, with a swap's legs and direction |
| AgentLedger.AgentIndexer.constructor | apps/indexer/src/agents.ts:74-133 | empty tables |
| AgentLedger.AgentIndexer.OnAgentLaunched | apps/indexer/src/agents.ts:74-148 | inserts the agent and its four links, or throws on a repeat |
| AgentLedger.AgentIndexer.OnContractEvent | apps/indexer/src/agents.ts:230-505 | finds the contract's agent, bumps its rows and records one activity, or throws on an unknown leg |
| AgentLedger.AgentIndexer.BumpTreasury | apps/indexer/src/agents.ts:579-609 | inserts or adds to the treasury row |
| AgentLedger.AgentIndexer.BumpRevenue | apps/indexer/src/agents.ts:619-660 | inserts, sets or adds to the revenue row |
| AgentLedger.AgentIndexer.Record | apps/indexer/src/agents.ts:536-570 | appends one activity row |
| AgentLedger.InsertingIsUpdatingZero | apps/indexer/src/agents.ts:591-660 | inserting gives the same row as updating a row of zeroes |
| AgentLedger.RunsToTheEndIff | apps/indexer/src/agents.ts:135-143 | the indexer reaches a log's end exactly when launches are of new agents with four new contracts and settled legs have columns; links are then the launches' |
| AgentLedger.RowsAreFolds | apps/indexer/src/agents.ts:243-480 | in every run treasury and revenue rows are the sums and last reports of the agent's own contracts' events |
| AgentLedger.OthersKeepTheirRows | apps/indexer/src/agents.ts:524-527 | an event changes no row of any agent but the one its emitter was linked to |
| AgentLedger.FeedMatchesTheTreasury | apps/indexer/src/agents.ts:259-273 | the spends in an agent's feed sum and count to its treasury's counters |
| AgentFeed.SwitchIsTheLastReport | apps/indexer/src/agents.ts:230-241 | in every run an agent's switch is the last one its own contracts reported, and off until then |
| AgentFeed.FeedTellsTheLog | apps/indexer/src/agents.ts:536-570 | in every run the whole feed is one activity for each event that belongs to an agent, in order, of its kind, asset and amount |
| ReplyText.TidyingKeepsWords | packages/agen-runtime/src/loop.ts:92 | collapsing and trimming lose no word and join none |
| ReplyText.CutsAtTheLastLateSpace | packages/agen-runtime/src/loop.ts:96-98 | exactly where a text is cut: at the last space past three quarters of the limit, or else at the limit less its mark |
| ReplyText.RepliesFit | packages/agen-runtime/src/loop.ts:90-99 | a reply is dropped exactly when it has no word, and fits exactly when the limit is at least one |
| ReplyText.TrimmingIsIdempotent | packages/agen-runtime/src/loop.ts:90-99 | trimming twice is trimming once |
| ReplyText.TrimParts | packages/agen-runtime/src/loop.ts:109-121 | the first parts that say something, in order, at least one allowed |
| ReplyText.PartsAreTrimmedSeparately | packages/agen-runtime/src/loop.ts:102-121 | no part is merged with, moved past or dropped for another |
| ReplyText.TrimmedPartsFit | packages/agen-runtime/src/loop.ts:109-121 | every part kept is some value trimmed, and fits |
| AgentLoop.PlansHonourTheSurface | packages/agen-runtime/src/depth.ts:141-158 | the surface's limits win wherever they allow a turn, and deeper never means fewer turns |
| AgentLoop.BudgetsByDepth | packages/agen-runtime/src/depth.ts:141-158 | four turns and one part, eight and two, twelve and three |
| AgentLoop.TurnsAreWellFormed | packages/agen-runtime/src/schema.ts:91-199 | a response is read as at most three non-blank parts, and fields of its own act only |
| AgentLoop.FieldsAreRead | packages/agen-runtime/src/schema.ts:91-199 | which field of a response each field of the turn is, by its act |
| AgentLoop.LegacyFieldsAreRead | packages/agen-runtime/src/schema.ts:91-199 | and of a response in the older shape |
| AgentLoop.Run | packages/agen-runtime/src/loop.ts:160-374 | the loop computes the recursive specification for every model and every tool |
| AgentLoop.CallsArePermitted | packages/agen-runtime/src/loop.ts:383-482 | a call runs at most one tool, only a permitted one the model was shown, and reports an execution only when one succeeded |
| AgentHistory.CallsRecord | packages/agen-runtime/src/loop.ts:383-482 | a named tool that may run, with valid arguments, is run, and recorded with exactly what it returned; otherwise a refusal is recorded and nothing runs |
| AgentLoop.EveryAnswerIsSound | packages/agen-runtime/src/loop.ts:160-374 | within the turn budget, one model call a turn, at most one successful execution, parts that fit and agree with the reply, and no unsourced reply where work was asked for |
| AgentLoop.PartsFitByDefault | packages/agen-runtime/src/loop.ts:50-161 | where the surface names no limit no part exceeds 240 units |
| AgentLoop.NoPermitNoExecution | packages/agen-runtime/src/loop.ts:177-190 | without the permit no execute tool runs and no answer executes |
| AgentLoop.TheLoopNeverFallsThrough | packages/agen-runtime/src/loop.ts:228-374 | the transcript has a turn's length less one at each head, and the silence after the loop is unreachable |
| AgentLoop.PushedBackOnTheFirstTurn | packages/agen-runtime/src/loop.ts:306-322 | the model is pushed back after its first turn or never |
| AgentLoop.OnlyTheModelFails | packages/agen-runtime/src/loop.ts:155-158 | no bad tool call ends a run without an answer |
| AgentLoop.LastTurnToolsAreSilent | packages/agen-runtime/src/loop.ts:324-332 | asking for a tool on the last turn ends in silence |
| AgentHistory.EveryRunIsTruthful | packages/agen-runtime/src/loop.ts:228-374 | in every finished run each entry is the push-back, a refusal with nothing run, or the outcome of the run made on that turn; thoughts are the model's in order; and the answer is what the last turn said or the detail its execution returned |
| FloodFill.NeighbourSteps | apps/agen/scripts/prepare-brand.ts:109-115 | the four guarded index steps are exactly the moves to a pixel sharing a side |
| FloodFill.DarkIsNearlyBlack | apps/agen/scripts/prepare-brand.ts:83-90 | a pixel is dark exactly when none of its three colour channels exceeds 26 |
| FloodFill.ClosedHoldsBackground | apps/agen/scripts/prepare-brand.ts:57-60 | a set closed under seeding and spreading misses none of the background |
| FloodFill.Seed | apps/agen/scripts/prepare-brand.ts:92-96 | marks and enqueues a dark index at most once, never overflowing the queue |
| FloodFill.SeedBorder | apps/agen/scripts/prepare-brand.ts:98-105 | every dark border pixel is marked |
| FloodFill.Flood | apps/agen/scripts/prepare-brand.ts:107-116 | empties the queue, leaving the marked set closed and all background |
| FloodFill.ClearAlpha | apps/agen/scripts/prepare-brand.ts:118-120 | zeroes the alpha of exactly the marked pixels |
| FloodFill.KeyOutBackground | apps/agen/scripts/prepare-brand.ts:70-123 | makes transparent exactly the pixels a dark four-connected walk from the border reaches, and changes no other byte |
| InkBox.FindInkBox | apps/landing/scripts/prepare-brand.ts:154-173 | the box holding every inked pixel of the columns with ink on each side, or what the scan leaves without ink |
| InkBox.InkBoxIsLeast | apps/landing/scripts/prepare-brand.ts:147-153 | such a box is inside every box that holds the ink |
| InkBox.MarkRightEdge | apps/landing/scripts/prepare-brand.ts:176-198 | the last inked column before the first gap of 24 columns, or null exactly when there is none |
| InkBox.Logo | apps/landing/scripts/prepare-brand.ts:201-224 | the least box of the ink, its split at the first gap or none exactly when there is no gap, and the mark left of it |
| InkBox.MarkIsInsideLockup | apps/landing/scripts/prepare-brand.ts:203-224 | the mark is not empty, lies inside the lockup, and ends where the gap begins |
| IcoPacker.PackIco | apps/agen/scripts/prepare-brand.ts:139-163 | writes the specified file, or fails when a number does not fit its field |
| IcoPacker.IcoRoundTrip | apps/agen/scripts/prepare-brand.ts:147-162 | reading the directory recovers every image's bytes, and its size exactly when from 1 to 256 |
| IcoPacker.FieldsReadBack | apps/agen/scripts/prepare-brand.ts:140-157 | every other field read back: reserved 0, type 1, height as width, no palette, one plane, 32 bits |
| Bytes.ByteOrder | apps/agen/scripts/prepare-brand.ts:141-157 | which byte of a field is the most significant |
| IcoPacker.PayloadsFillTheFile | apps/agen/scripts/prepare-brand.ts:145-162 | payloads follow the directory in order, back to back, to the end of the file |
| PngChunk.BuildTable | apps/agen/scripts/seed-instant.ts:240-246 | entry i of the table is i shifted eight times |
| PngChunk.HalvingIsLinear | apps/agen/scripts/seed-instant.ts:240-246 | the shift distributes over exclusive or |
| PngChunk.ShiftingIsHalving | apps/agen/scripts/seed-instant.ts:248-249 | feeding data bits in is shifting the register they were folded into |
| PngChunk.TableStep | apps/agen/scripts/seed-instant.ts:249 | one table step is eight bit steps |
| PngChunk.TableCrc | apps/agen/scripts/seed-instant.ts:248-252 | the table-driven checksum is the bit-at-a-time CRC-32 of section 3.4 of RFC 2083, for every message |
| PngChunk.ClosingChecksum | apps/agen/scripts/seed-instant.ts:234-255 | the checksum of an IEND chunk is the one every PNG file ends in |
| PngChunk.OneByteChanged | apps/agen/scripts/seed-instant.ts:248-252 | changing any one byte of a message changes its checksum |
| PngChunk.WriteChunk | apps/agen/scripts/seed-instant.ts:234-255 | length, type, body and checksum in order |
| PngChunk.ChunkRoundTrip | apps/agen/scripts/seed-instant.ts:234-255 | a decoder that checks the checksum recovers every chunk written and what follows it |
| WorkerPool.RunAccountsForEveryCase | apps/agen/scripts/benchmark-prompts.ts:494-510 | on return results plus skipped are the cases, each started case has exactly its result, and cases are skipped only once exhausted |
| WorkerPool.TalliesCoverTheCases | apps/agen/scripts/benchmark-prompts.ts:549-551 | measured, starved and skipped cover the cases, and a run is incomplete exactly when some build starved |
| WorkerPool.NoCaseBuiltTwice | apps/agen/scripts/benchmark-prompts.ts:500-505 | at every point of every run, results, hands and queue hold each case exactly once |
| WorkerPool.WorkersAreFew | apps/agen/scripts/benchmark-prompts.ts:499-499 | as many workers as the concurrency, no more than cases, and at least one |
| WorkerPool.InFlightWithinConcurrency | apps/agen/scripts/benchmark-prompts.ts:487-507 | at every point of every run at most concurrency builds are in flight |
| WorkerPool.ResultsAreTheBuilds | apps/agen/scripts/benchmark-prompts.ts:500-505 | a case stands as measured or starved exactly as often as its builds ended so |
| WorkerPool.FrozenOnceExhausted | apps/agen/scripts/benchmark-prompts.ts:458-504 | once the flag is up no case leaves the queue |
| WorkerPool.FewFinishAfterExhaustion | apps/agen/scripts/benchmark-prompts.ts:458-504 | at whatever point of a run the flag goes up, at most concurrency less one other builds still finish |
| WorkerPool.EveryRunStops | apps/agen/scripts/benchmark-prompts.ts:499-507 | no run has more than three steps a case and one a worker, and one that can go no further has stopped every worker |

## Left out

- Floating point, the logarithm and exponential of `snap`, the tolerance checks and the report printing of `curve.ts`; bounds arrive as square roots.
- Caller checks, events, gas and integer overflow of the embedded contracts; `setHook` wiring.
- `FeeJoin` models the hook only as the order and amounts of what it emits; its rates, tiers and rounding are not part of this model.
- A round's payouts are amounts a claim returns; the tokens' transfer is not in the contracts either.
- Block timestamps, prices, ticks and liquidity stored in indexer rows, and the columns only copied from events.
- Database rollback on a chain reorganisation, and the partial writes of a handler that throws.
- `FeeJoin` keeps the set of followed markets fixed within a transaction; creating markets and `configOf` are not modelled.
- BoostLedger.RowsAreTheirHistories: takes tokens and vaults of created markets to be distinct, as do the handlers that look a market up by either, without which the queries' limit of one picks an unspecified row; the missing `Initialize` row of a creation, which throws, is not modelled.
- AgentLedger.AgentIndexer.OnContractEvent: covers the treasury and revenue contracts; mandates, services, payments and the identity registry only write flags and feed entries.
- AgentLoop.Run: leaves out prompts and the wording of its own messages, images, the deadline of a tool run and durations; depth is an input, since the patterns of `depthFor` are a word list; argument parsing is an arbitrary function.
- An entry the loop records for a push-back cannot be told from a tool's by its name alone, since a model may name anything; `AgentLoop` distinguishes them by state.
- ReplyText.TrimmingIsIdempotent: holds for a limit of at least one, which every surface passes.
- FloodFill.KeyOutBackground: requires width and height of at least one, as every decoded image has; the image decoding around it is a foreign call.
- WorkerPool: `misreadFees`, the preflight and everything a build does are outside; a build is only its case and whether it starved.
- Image codecs, zlib, files, HTTP, RPC, wallets, the `assert-*` scripts and the model-build specifications.
