# Bybit ledger PnL engine — a verified model

This project models the analysis core of a small web service. The service
takes Bybit CSV ledgers and computes realised profit and loss. It matches
disposals against acquisitions first-in first-out (FIFO), one queue of lots
per instrument.

- **Spot ledgers** have one row per coin leg. A buy of a coin is priced by
  the USDT leg with the same timestamp. A sale is meant to consume the
  coin's oldest lots first; as written every leg is taken as a buy, so no
  sale is matched (first row of "## Findings"). Trading fees are totalled
  per coin.
- **Contract ledgers**: for each contract, a CLOSE consumes the quantities of
  earlier OPENs, oldest first. Each match receives a share of the close's
  cash flow and fee, a share of the opening fee, and a share of the funding
  settled while the position was open.
- The fills of a contract analysis are merged by close time and numbered
  "T-1", "T-2", and so on. Each merged trade is a day trade or a swing,
  depending on its quantity-weighted holding period. The report carries a
  KPI block, a cumulative-pnl chart and a trade table.
- File classification decides which analysis runs. A batch that mixes spot
  and contract files is rejected. Legacy contract files (a `Direction`
  column, no `Action` column) are translated first.

Modules, one per part of the program:

| file | module | what it models |
|---|---|---|
| common.dfy | `Common` | Option/Result, numeric coercion, sums, filters, group-by, stable sort |
| fifo.dfy | `Fifo` | the FIFO lot queue shared by both engines (`ConsumeQueue`, a `while` loop) |
| normalizer.dfy | `Normalizer` | file classification, analysis selection, the legacy adapter, row normalisation |
| time_format.dfy | `TimeFormat` | `format_timedelta` |
| spot.dfy | `SpotEngine` | the spot analysis |
| contract.dfy | `ContractEngine` | the contract matching engine |
| aggregate.dfy | `Aggregation` | merging by close time, numbering and classification, KPI, chart |
| contract_analysis.dfy | `ContractAnalysis` | the contract analysis end to end |

Loops in the program are methods with `for`/`while` loops. Each is proved
equal to a specification function:

- the FIFO loop (`Fifo.ConsumeQueue`);
- the spot leg loop (`SpotEngine.ProcessLegs`);
- the per-contract and per-row loops (`ContractEngine.MatchContracts`, `ContractEngine.ProcessGroup`);
- the numbering loop (`Aggregation.NumberTrades`);
- the chart loops (`SpotEngine.BuildSpotChart`, `Aggregation.BuildChart`).

The properties are lemmas about those functions. The vectorised dataframe
steps (sorting, filtering, grouping, sums) are functions.

Money and quantities are `real`s, standing in for the Python `Decimal`
values the engine computes with; "## Left out" says where the program goes
through floating point instead. Timestamps are whole seconds. The
lot-exhaustion threshold is `Fifo.EPSILON` = 1e-9.

Funding is allocated under one of two rules (`ContractEngine.FundingRule`):

- `WindowShare` is the code as written (app.py:241-254). A fill takes the
  funding settled in (open time, close time], scaled by matched quantity
  over the quantity of all OPENs in [open time, close time].
- `Accrual` is the evidently intended allocation. Each settlement is
  shared among the lots open at that moment, by quantity, as a raise of
  their funding per unit. A match carries off its part. The "## Findings"
  table shows where the two differ.

`ContractAnalysis.ContractAnalysisBy` and `ContractAnalysis.AnalyzeContractTrades`
take the rule as a parameter: with `WindowShare` they are the analysis as
written. `ContractAnalysis.ContractAnalysis` is the analysis with `Accrual`.

## Model

| member | source | states |
|---|---|---|
| Common.Coerce | app.py:199-205 | a missing or unparseable cell reads as 0; a number reads as itself |
| Common.Min | app.py:232 | the smaller of the two amounts, and one of them |
| Common.Abs | app.py:112 | absolute value: non-negative and ±x |
| Common.SumByConcat | app.py:148 | a sum over a concatenation is the sum of the parts |
| Common.Filter | app.py:80-81 | the kept rows all satisfy the predicate and come from the input, and there are no more of them than input rows |
| Common.FilterKeeps | app.py:209 | every row satisfying the predicate is kept |
| Common.FilterComplete | app.py:209-216 | no row satisfying the predicate is dropped |
| Common.FilterCounts | app.py:80-81 | a filter keeps each row satisfying the predicate exactly as often as the input holds it, and no other row |
| Common.FilterAll | app.py:80 | a filter every row passes returns its input unchanged |
| Common.FilterNone | app.py:81 | a filter no row passes returns nothing |
| Common.Having | app.py:220 | a group holds only input rows carrying its key |
| Common.HavingKeeps | app.py:220 | no input row carrying the key is missing from its group |
| Common.HavingCounts | app.py:220 | a group holds each row carrying its key exactly as often as the input does, and no other row |
| Common.HavingNonEmpty | app.py:220 | the group of an existing row's key is non-empty |
| Common.SumByHavingSnoc | app.py:89 | a group sum grows by a new row exactly when the row carries the key |
| Common.SumOverKeysSnoc | app.py:89 | the sum over all groups grows by a new row whose key is listed |
| Common.PartitionSum | app.py:89 | summing group by group over distinct keys that cover every row gives the plain total |
| Common.EmptyOverKeys | app.py:89 | no rows give a zero sum over any keys |
| Common.InsertBy | app.py:207 | one insertion step adds exactly one row |
| Common.InsertByPermutes | app.py:207 | one insertion step keeps the row multiset |
| Common.InsertBySorted | app.py:207 | one insertion step keeps the rows in time order |
| Common.SortBy | app.py:207 | sorting keeps the number of rows |
| Common.SortByPermutes | app.py:207 | sorting only reorders: same multiset of rows |
| Common.SortBySorted | app.py:207 | the sorted rows are in non-decreasing key order |
| Common.SortByMembers | app.py:95 | a row is in the sorted result exactly when it is in the input |
| Common.SortByIdentity | app.py:222 | sorting rows already in order changes nothing |
| Common.FilterSorted | app.py:216 | filtering time-ordered rows keeps them in time order |
| Common.HavingSorted | app.py:220-222 | a contract's group of time-ordered rows is time-ordered |
| Common.HasSubIsContains | app.py:26 | the executable substring test agrees with `sub in s` |
| Fifo.Consume | app.py:122-142 | nothing is matched when nothing is wanted or the queue is empty; never more matches, and never more lots left, than the queue had |
| Fifo.ConsumeQueue | app.py:230-275 | the in-place decrement-and-pop loop computes exactly the matches and remaining queue of `Consume` |
| Fifo.ConsumeUnfold | app.py:230-239 | one iteration: the head lot is matched for min(wanted, its quantity), then popped or kept decremented |
| Fifo.NothingWanted | app.py:230 | a non-positive disposal matches nothing and leaves the queue unchanged |
| Fifo.ConsumeIsFifo | app.py:122-124 | the k-th match is against the k-th oldest lot, with the quantity it then had; never more matches than lots |
| Fifo.TakesMinCons | app.py:124 | prepending a min-match to a min-taking tail keeps the min-taking property |
| Fifo.ConsumeMatchesMin | app.py:232 | each match takes min(still to dispose of, the lot's remaining quantity) |
| Fifo.ConsumeRest | app.py:271-275 | every matched lot is popped except possibly the last, which stays at the head decremented by its match with more than 1e-9 left |
| Fifo.ConsumeConserves | app.py:121-142 | the matches never exceed the disposal and equal it unless the queue ran out |
| Fifo.ConsumeKeepsPositive | app.py:138-142 | from positive lots, every match and every remaining lot is positive |
| Fifo.ConsumeCarries | app.py:271-275 | of any per-unit amount the lots hold, what the matches carry off plus what the remaining queue holds is what the queue held |
| Fifo.WeightedTotalConcat | app.py:226 | the per-unit total of two queues back to back is the sum of theirs |
| Fifo.ConsumeWhole | app.py:230-275 | one lot and a disposal of exactly its quantity: one full match, empty queue |
| Fifo.ConsumeBoth | app.py:230-275 | two lots and a disposal of their joint quantity: two full matches, empty queue |
| Fifo.ConsumePart | app.py:230-275 | a lot partly matched, leaving more than 1e-9, stays at the head decremented |
| Normalizer.Classify | app.py:51-57 | spot iff Coin and Amount columns; else contract iff Contract or Direction; else skipped |
| Normalizer.SelectAnalysis | app.py:377-393 | no kept rows is NoValidData; two kinds is MixedFiles; otherwise the batch's single kind |
| Normalizer.TwoKinds | app.py:382 | a batch is mixed exactly when it holds both kinds; otherwise it has one kind or none |
| Normalizer.KeptRowsHaveTag | app.py:66-69 | a batch with kept rows has at least one kind |
| Normalizer.TagOfKeptFile | app.py:51-58 | every classified file contributes its kind |
| Normalizer.AlwaysDetermined | app.py:385-393 | the "could not determine analysis type" error is unreachable |
| Normalizer.MixedBatchRejected | app.py:382-383 | one spot file plus one contract file (with data) is always rejected as mixed |
| Normalizer.LegacyColumns | app.py:22-37 | the legacy adapter renames Time and guarantees every required column |
| Normalizer.LegacyAction | app.py:26 | OPEN iff the direction contains "Open"; else CLOSE iff it contains "Close"; else none |
| Normalizer.UpperChar | app.py:29 | upper-casing leaves no lower-case letter and fixes other characters |
| Normalizer.Upper | app.py:29 | upper-casing works character by character and keeps the length |
| Normalizer.RemapType | app.py:28-31 | the type is upper-cased; FUNDING becomes SETTLEMENT and never survives |
| Normalizer.UpperIdempotent | app.py:29 | upper-casing twice equals upper-casing once |
| Normalizer.RemapTypeIdempotent | app.py:28-31 | re-applying the legacy type mapping changes nothing |
| Normalizer.LegacyRow | app.py:20-39 | only Action and Type change in a legacy row |
| Normalizer.PrepareContractRows | app.py:56-57 | the legacy adapter applies to every row exactly when Direction is present and Action absent |
| Normalizer.Normalize | app.py:195-205 | a row survives iff not all essential cells are missing (and it has a time); its numbers are coerced, its other cells kept |
| Normalizer.NormalizeAll | app.py:195-197 | normalisation never adds rows |
| Normalizer.NormalizeAllKeeps | app.py:195-197 | every surviving row is in the normalised ledger |
| Normalizer.NormalizeAllOfRows | app.py:195-197 | the normalised ledger has one record per surviving row, in order, each that row's normal form |
| TimeFormat.Decompose | app.py:15-17 | days, hours < 24, minutes < 60, seconds < 60 recompose to the total |
| TimeFormat.DecomposeUnique | app.py:15-17 | that decomposition is the only one with in-range fields |
| TimeFormat.NatStringRoundTrip | app.py:18 | decimal digits read back to the number |
| TimeFormat.IntStringRoundTrip | app.py:18 | signed decimal text reads back to the integer |
| TimeFormat.Pad2RoundTrip | app.py:18 | a two-digit zero-padded field reads back to its value |
| TimeFormat.FormatRoundTrip | app.py:13-18 | the text of `FormatTimedelta` ends in "d HH:MM:SS" and reads back to the same number of seconds |
| SpotEngine.Coerced | app.py:77 | amounts are coerced row by row |
| SpotEngine.Entries | app.py:73-77 | the ledger sorted by time, a permutation of the coerced rows |
| SpotEngine.LedgerSplit | app.py:80-81 | the trade rows and the fee rows are the coerced rows of each type, each exactly as often as it occurs, in time order |
| SpotEngine.BuyLegs | app.py:84 | buy legs all have positive amounts |
| SpotEngine.SellLegs | app.py:85-86 | sell legs carry the absolute amount and remember they were sells |
| SpotEngine.BuyLegsOfRows | app.py:84 | one buy leg per positive trade row, in order, of that row's time, coin and amount |
| SpotEngine.SellLegsOfRows | app.py:85-86 | one sell leg per negative trade row, in order, of that row's time, coin and negated amount |
| SpotEngine.Legs | app.py:95 | the merged legs are time-ordered, all positive, and a permutation of the buy legs followed by the sell legs |
| SpotEngine.SortedLegs | app.py:95 | sorting positive legs by time keeps them, positive, in time order |
| SpotEngine.TradeBecomesLeg | app.py:84-95 | every non-zero trade row becomes a leg with its absolute amount and side |
| SpotEngine.BuyLegMember | app.py:84 | every positive trade row is a buy leg |
| SpotEngine.SellLegMember | app.py:85-86 | every negative trade row is a sell leg of the negated amount |
| SpotEngine.FirstQuote | app.py:110-112 | the index of the first USDT trade at the time, or the end |
| SpotEngine.QuoteIsFirst | app.py:110-118 | `QuoteAmount` is none iff no USDT trade has that time; otherwise the amount of the first one |
| SpotEngine.SaleFills | app.py:128-136 | one fill per match |
| SpotEngine.LegSide | app.py:86-106 | as written every leg passes the buy test; by the row's own sign exactly the buy legs do |
| SpotEngine.StepLeg | app.py:97-142 | without a USDT quote nothing changes; a buy realises nothing; fills are only appended; no other coin's queue changes; only the leg's coin may gain a queue |
| SpotEngine.BuyStep | app.py:108-114 | a priced buy appends one lot of its amount at abs(USDT) / amount |
| SpotEngine.SaleStep | app.py:115-142 | a priced sell appends exactly its FIFO fills and leaves the rest of the queue |
| SpotEngine.RunLegsCoins | app.py:102-103 | a queue exists only for coins some leg traded |
| SpotEngine.ProcessLegs | app.py:97-142 | the leg loop computes exactly the inventory and fills of `RunLegs` |
| SpotEngine.RunLegsSnoc | app.py:97 | the walk grows by one leg step per leg |
| SpotEngine.StepPositive | app.py:138-142 | one leg keeps all lots and fills positive |
| SpotEngine.RunPositive | app.py:97-142 | every lot held and every fill has a positive quantity |
| SpotEngine.SaleFillsQuantity | app.py:131 | the fills' quantities add up to the matched quantity |
| SpotEngine.SaleFillAt | app.py:126-136 | a fill has its lot's price and time, the sell price and time, and pnl (sell - buy) x quantity |
| SpotEngine.SaleFillsFifo | app.py:122-136 | the k-th fill of a sale is against the k-th oldest lot, at its price, with pnl (sell - buy) x quantity |
| SpotEngine.SaleFillsConserve | app.py:121-142 | a sale never sells more than the leg, and all of it unless the queue ran out |
| SpotEngine.AsWrittenNoFills | app.py:86-106 | as written, no leg ever takes the sell branch, so no fill is produced |
| SpotEngine.Coins | app.py:89 | distinct fee coins covering every fee row |
| SpotEngine.FeeOverCoins | app.py:89 | the per-coin absolute totals are non-negative |
| SpotEngine.SumNonPositive | app.py:89 | debits sum to a non-positive amount |
| SpotEngine.FeeOverDebits | app.py:89 | over debits, the per-coin absolute totals are the negated per-coin sums |
| SpotEngine.FeesAreTotalDebit | app.py:89-149 | when every fee row is a debit, total fees are the negated sum of all fee rows |
| SpotEngine.MinBuyTime | app.py:154 | the earliest buy time among the fills |
| SpotEngine.SellTimes | app.py:156-157 | one sell time per fill |
| SpotEngine.Cumulative | app.py:153 | one running sum per fill |
| SpotEngine.BuildSpotChart | app.py:153-158 | the chart loop yields [earliest buy] + sell times and [0] + running pnl |
| SpotEngine.CumulativeSteps | app.py:153-158 | the chart starts at 0, steps by each fill's pnl and ends at the gross pnl |
| SpotEngine.ReportOf | app.py:147-170 | the table is the fills; the chart starts at 0 at the earliest buy and steps by each fill's pnl at its sell time; net pnl is the chart's last point minus the fees |
| SpotEngine.SpotAnalysisBy | app.py:144-150 | "No realized PnL" exactly when no fill was realised; otherwise the report over the fills and the ledger's fees |
| SpotEngine.SpotAsWrittenAlwaysFails | app.py:86-145 | as written, every spot ledger reports "No realized PnL" |
| SpotEngine.SpotReportConsistent | app.py:144-182 | a report has fills, one chart point per fill after a leading 0, net = gross - fees, fees >= 0, positive quantities, first label no later than any buy |
| SpotEngine.ExampleRun | app.py:97-142 | in the worked ledger, the sell of 10 X at t=2 realises one fill of pnl 10 against the lot bought at t=1 |
| SpotEngine.SpotRoundTrip | app.py:71-182 | for any coin X: buy 10 X for 20 USDT, sell them for 30 USDT gives one fill of pnl 10, fees 0, chart [0, 10] |
| SpotEngine.AnalyzeSpotTrades | app.py:71-182 | the analysis computes exactly `SpotAnalysisBy` for the reading it is given; with `AsWritten` that is app.py:71-182 as written |
| ContractEngine.Ratio | app.py:234-238 | part / whole when whole > 0, else 0 |
| ContractEngine.ClosePnlPart | app.py:234-235 | the close's cash flow x matched / close quantity; none when the close quantity is not positive |
| ContractEngine.CloseFeePart | app.py:234-236 | the close's fee in the same proportion |
| ContractEngine.OpenFeePart | app.py:238-239 | the lot's fee x matched / the lot's quantity as it stands at the match |
| ContractEngine.FundingSum | app.py:241-246 | an empty window (open, close] holds no funding |
| ContractEngine.OpenQuantityIn | app.py:248-252 | an empty window [open, close] holds no opened quantity |
| ContractEngine.FundingPart | app.py:254 | the window's funding x matched / quantity opened in the window; none when none was opened |
| ContractEngine.FillOf | app.py:256-269 | the fill's contract, quantity, open and close time, holding = close - open, fees = open + close fee parts, pnl = cash share + fees + funding; the funding is the window share or what the match carries |
| ContractEngine.CloseFills | app.py:260-269 | one fill per match |
| ContractEngine.AccrueBy | app.py:241-254 | every open lot's funding per unit is raised by the rate; nothing else changes |
| ContractEngine.AccrueByAdds | app.py:241-254 | raising by a rate adds rate x open quantity to what the lots hold |
| ContractEngine.Accrue | app.py:241-254 | a settlement keeps every lot's quantity, fee and time |
| ContractEngine.AccrueShares | app.py:241-254 | the open lots receive exactly the settled amount when a positive quantity is open, nothing otherwise |
| ContractEngine.AccrueTwo | app.py:241-254 | a settlement over two lots raises both by amount / joint quantity |
| ContractEngine.Step | app.py:224-228 | a row only appends fills and adds at most one lot |
| ContractEngine.Run | app.py:224-275 | never more lots open than rows seen |
| ContractEngine.RunSnoc | app.py:224 | the walk grows by one step per row |
| ContractEngine.CloseStep | app.py:227-275 | a CLOSE appends the fills of its matches and leaves the rest of the queue |
| ContractEngine.ProcessGroup | app.py:222-275 | the per-row loop computes exactly `Run` over the group |
| ContractEngine.StrLessIrreflexive | app.py:220 | no contract name sorts before itself |
| ContractEngine.StrLessTransitive | app.py:220 | contract-name order is transitive |
| ContractEngine.StrLessTotal | app.py:220 | any two contract names are equal or ordered |
| ContractEngine.InsertKey | app.py:220 | inserting a contract name adds it to the listed names |
| ContractEngine.InsertKeyOrdered | app.py:220 | inserting a new contract name keeps the names strictly ordered |
| ContractEngine.ContractKeys | app.py:220 | the contracts in strictly ascending order, covering every trade row with a contract |
| ContractEngine.ContractKeysOccur | app.py:220 | every listed contract has at least one trade row |
| ContractEngine.OrderedDistinct | app.py:220 | strictly ordered contract names are distinct |
| ContractEngine.SortedGroup | app.py:222 | a contract's rows re-sorted: in time order and a permutation of its trade rows |
| ContractEngine.GroupAlreadySorted | app.py:222 | re-sorting a contract's rows by time changes nothing when they already are in time order |
| ContractEngine.GroupRows | app.py:220-222 | the walked rows are in time order: the re-sorted group, plus under Accrual exactly the contract's settlements |
| ContractEngine.TradeRows | app.py:216 | the OPEN/CLOSE TRADE rows, each exactly as often as it occurs, and no other row |
| ContractEngine.SettlementRows | app.py:209-213 | the SETTLEMENT rows, each exactly as often as it occurs, and no other row |
| ContractEngine.MatchContracts | app.py:220-275 | the contract loop computes exactly the fills of every contract in ascending order |
| ContractEngine.AllFillsSnoc | app.py:220 | the fills grow by one contract's group at a time |
| ContractEngine.CloseFillsQuantity | app.py:260-269 | the fills' quantities add up to the matched quantity |
| ContractEngine.CloseIsFifo | app.py:227-275 | a CLOSE appends fills against the oldest lots in order, stamped with their open times and held close - open; their quantity is at most the close's and equal to it unless lots ran out |
| ContractEngine.ShareTotalProportional | app.py:234-236 | the close-side shares sum to amount x matched / close quantity |
| ContractEngine.CloseShareAllocated | app.py:234-236 | a close hands out its cash flow and fee in proportion to what it matched, in full when fully matched |
| ContractEngine.ShareAllocated | app.py:234-236 | the same for one amount of the close |
| ContractEngine.ShareOfWhole | app.py:234-236 | fully matched, the shares sum to the whole amount |
| ContractEngine.CloseSharesAreFillParts | app.py:234-236 | those shares are the fills' close pnl and close fee parts |
| ContractEngine.FullLotFee | app.py:238-239 | a lot closed in one match passes on exactly its fee |
| ContractEngine.SplitLotFee | app.py:238-275 | a lot closed in two matches passes on fee x a / q plus the whole fee again |
| ContractEngine.FundingWindowsTile | app.py:241-246 | funding windows (from, mid] and (mid, to] add up to (from, to] |
| ContractEngine.FundingIgnoresOthers | app.py:241-246 | settlements of other contracts or outside the window contribute nothing |
| ContractEngine.SoleOpenTakesAllFunding | app.py:248-254 | a match that is the whole open quantity of its window takes all of that window's funding |
| ContractEngine.WindowFillFunding | app.py:241-254 | on the window share a fill takes its matched units' portion of the window's funding over the quantity opened in the window |
| ContractEngine.LedgerOneWindows | app.py:241-252 | in the partial-close ledger, the windows' opened quantities and funding |
| ContractEngine.LedgerTwoWindows | app.py:241-252 | in the overlapping-opens ledger, the windows' opened quantities and funding |
| ContractEngine.PartialCloseRun | app.py:224-275 | OPEN q, CLOSE a, CLOSE q - a: one fill per close, both against the one lot |
| ContractEngine.PartialCloseWindowFunding | app.py:241-254 | on the window share the two fills take 0 and (q - a) / q of the funding |
| ContractEngine.PartialCloseMisses | app.py:241-254 | as written, a settlement between two partial closes is paid out only in part: 0 and F x (q - a) / q |
| ContractEngine.OverlapWindowRun | app.py:224-275 | OPEN q1, OPEN q2, CLOSE q1 + q2: two full matches |
| ContractEngine.OverlapOvercharges | app.py:241-254 | as written, with overlapping opens the fills take F x q1 / (q1 + q2) and all of F: more than was settled |
| ContractEngine.UnaccruedFillFunding | app.py:241-254 | under Accrual a fill against a lot that accrued nothing carries no funding |
| ContractEngine.AccrualFillFunding | app.py:241-254 | under Accrual a fill emptying a lot of q units, accrued f / total per unit, carries q's portion of f |
| ContractEngine.PartialCloseAccrualRun | app.py:224-275 | the partial-close ledger under Accrual: the remaining lot holds F / (q - a) per unit when it is closed |
| ContractEngine.PartialCloseAccrues | app.py:241-254 | under Accrual the same ledger pays out 0 and F: all of the funding |
| ContractEngine.OverlapAccrualOpen | app.py:224-226 | the overlapping-opens ledger under Accrual: both lots accrue F / (q1 + q2) per unit |
| ContractEngine.OverlapAccrualFills | app.py:224-275 | then the CLOSE matches both lots in full |
| ContractEngine.OverlapAccrualRun | app.py:241-254 | and the fills carry F's portions by quantity |
| ContractEngine.OverlapAccrues | app.py:241-254 | under Accrual overlapping opens take F x q1 / (q1 + q2) and F x q2 / (q1 + q2), together exactly F |
| ContractEngine.CloseFundingCarried | app.py:256-269 | under Accrual a close's fills carry off what its matches carry of the lots' funding |
| ContractEngine.StepConserves | app.py:224-275 | one row under Accrual: fill funding plus lot funding grows by the settlement when a positive quantity is open, else stays |
| ContractEngine.FundingConserved | app.py:241-254 | under Accrual, fill funding plus what the open lots hold is exactly the funding settled while a position was open |
| ContractEngine.FlatPositionCarriesFunding | app.py:241-254 | once flat, the fills carry exactly the funding settled while the position was open |
| ContractEngine.StepShape | app.py:224-228 | a settlement under Accrual only accrues; an OPEN enqueues its lot; other rows than CLOSE change nothing |
| ContractEngine.NonNegativeHoldingConcat | app.py:258 | non-negative holding is kept when fill lists are joined |
| ContractEngine.CloseKeepsHolding | app.py:256-265 | a close after all open lots records non-negative holding periods |
| ContractEngine.RunHoldingNonNegative | app.py:222-265 | over time-ordered rows every fill is held close time - open time >= 0 |
| ContractEngine.FundedPosition | app.py:224-275 | OPEN 10, funding -4, CLOSE 10 for 50 with fees -0.5/-1 realises 44.5 |
| Aggregation.InsertTime | app.py:299 | inserting a close time adds it to the listed times |
| Aggregation.InsertTimeIncreasing | app.py:299 | inserting a new close time keeps the times strictly increasing |
| Aggregation.CloseTimes | app.py:299 | the distinct close times, strictly increasing, covering every fill |
| Aggregation.CloseTimesOccur | app.py:299 | every listed close time is that of some fill |
| Aggregation.MinOpen | app.py:295 | the earliest open time of the merged fills |
| Aggregation.WeightedHolding | app.py:285-288 | the weighted mean times the total quantity is Σ holding x quantity; 0 when the quantities sum to 0 |
| Aggregation.AggregateOf | app.py:290-301 | a merged trade: each measure is the fills' sum, open time the earliest, contract the first fill's, holding the weighted mean |
| Aggregation.AggregatesOver | app.py:299-302 | one merged trade per close time, in that order |
| Aggregation.AggregatesOverAt | app.py:299-301 | the i-th merged trade is the aggregate of the fills closing at the i-th time |
| Aggregation.AggregationConserves | app.py:290-302 | merged pnl, fees, funding and quantity add up to the fills' totals |
| Aggregation.GroupedByCloseTime | app.py:299-305 | merged trades come in strictly increasing close time, every fill's close time has one, and each is the aggregate of exactly the fills closing then |
| Aggregation.WeightedHoldingWithin | app.py:285-288 | with positive quantities the weighted holding lies between the shortest and the longest holding |
| Aggregation.Classified | app.py:307-315 | one trade per merged trade |
| Aggregation.NumberTrades | app.py:307-315 | the numbering loop computes exactly `Classified` |
| Aggregation.ClassifiedAt | app.py:309-314 | trade k is built from merged trade k and the running totals through k |
| Aggregation.TradeOfReadsBack | app.py:310-315 | a trade's id reads "T-" and back to its position + 1; it keeps its merged trade and totals; its holding text reads back to the period's whole seconds |
| Aggregation.ClassifiedFacts | app.py:309-344 | trade k is "T-(k+1)" over merged trade k, with running totals through k, swing iff holding > threshold, holding text reading back to its seconds |
| Aggregation.KpiSplit | app.py:317-319 | day-trade and swing pnl add up to the total |
| Aggregation.ClassifiedTotal | app.py:311-317 | the KPI total is the sum of the merged trades' pnl |
| Aggregation.LastCumulativeIsTotal | app.py:311-317 | the last running total equals the KPI total |
| Aggregation.ChartLabels | app.py:321-324 | one label per trade after the first |
| Aggregation.ChartData | app.py:322-325 | one point per trade after the leading 0 |
| Aggregation.BuildChart | app.py:321-325 | the chart loop yields the labels and points |
| Aggregation.AggTotalSnoc | app.py:311 | a running total grows by one merged trade at a time |
| Aggregation.ChartSteps | app.py:321-325 | the chart starts at 0, steps by each trade's pnl and ends at the KPI total |
| ContractAnalysis.Records | app.py:195-207 | the normalised records in time order, each exactly as often as it survived normalisation |
| ContractAnalysis.FillsNeedRecords | app.py:277-278 | a fill needs at least one record |
| ContractAnalysis.ContractAnalysisBy | app.py:188-358 | under either funding rule: NoContractData iff the ledger is empty; NoClassifiableTrades iff non-empty with no fill; otherwise the report over the merged, classified fills |
| ContractAnalysis.AnalyzeContractTrades | app.py:188-358 | the analysis computes exactly `ContractAnalysisBy` for the funding rule it is given; with `WindowShare` that is funding as app.py:241-254 writes it |
| ContractAnalysis.GroupFillsNonNegative | app.py:220-265 | every fill of one contract's group has non-negative holding |
| ContractAnalysis.AllFillsNonNegative | app.py:220-275 | over time-ordered trade rows every contract's fills have non-negative holding |
| ContractAnalysis.HoldingNonNegative | app.py:207-265 | under either funding rule, every fill of the analysis is held a non-negative time |
| ContractAnalysis.ReportOfConsistent | app.py:315-336 | over any fills: day + swing = total = sum of fill pnl; one chart point per trade after a leading 0, ending at the total; first label as given |
| ContractAnalysis.ReportConsistent | app.py:315-336 | under either funding rule, a report's day + swing = total = sum of all fill pnl; one chart point per trade after a leading 0, ending at the total |
| ContractAnalysis.FirstIsEarliest | app.py:207 | the first of time-ordered records is the earliest |
| ContractAnalysis.ChartStartsFirst | app.py:321 | under either funding rule, a report's first chart label is no later than any record |

## Left out

- HTTP handling, file upload, CSV parsing, `print` logging and the per-file read exceptions (app.py:41-64, 364-397) are I/O. The model starts from parsed rows and column sets (`Normalizer.Header`, `Normalizer.RawRow`, `SpotEngine.SpotRow`).
- Parsing dates and `strftime`: timestamps are integer seconds, and chart labels are those integers, not formatted text.
- Normalizer.Normalize drops rows whose timestamp does not parse (NaT). pandas would keep them and sort them last.
- Common.Coerce reads a numeric cell as its exact value. The program parses cells with `pd.to_numeric` into float64 before wrapping them in `Decimal` (app.py:77, 203), so a cell with more significant digits than a double holds is rounded there and not here.
- ContractEngine.FillOf records the holding period as whole seconds. The program takes `total_seconds()` as a float (app.py:263) and turns that float into a `Decimal` (app.py:283); both steps are exact for whole seconds below 2^53.
- Aggregation.StyleOf compares the exact weighted mean with the threshold, and Aggregation.TradeOf formats its whole seconds (`Floor`). The program applies `float()` to the Decimal weighted mean first, at app.py:315 for the comparison and at app.py:344 before `pd.to_timedelta`. That mean need not be whole, and the rounding to a double is not modelled: a mean just above the threshold can round down onto it (so the program says day trade where the model says swing), and a mean just below a whole second can round up to it.
- `float()` conversion of the output figures and Decimal's 28-digit rounding of products and quotients are not modelled: arithmetic is exact over `real`.
- Sorting is a stable insertion sort. pandas' default quicksort is not stable, so rows with equal timestamps may come out in another order there.
- `Normalizer.Upper` upper-cases ASCII letters only, not full Unicode.
- The `try`/`except` wrappers that turn any exception into an error message are not modelled. Within the model no operation fails.
- Spot rows with a missing Coin cell are not modelled (the coin is a string). Spot Type values are compared as given.
- The trade ids "S-1", "S-2", ... of the spot trade table are left out: `SpotReport.trades` lists the fills in order.
- The threshold form field (app.py:386) is a parameter of `ContractAnalysis.ContractAnalysisBy`. Its parsing is not modelled.
- Aggregation.WeightedHoldingWithin requires positive quantities. The engine enqueues OPEN rows of any quantity, so for the end-to-end analysis the model proves only non-negative holding per fill (`ContractAnalysis.HoldingNonNegative`), not for the weighted average.
- Common.Filter states only that its rows satisfy the predicate and come from the input; how often each row is kept is stated by `Common.FilterCounts`, which keeps multiset facts out of every proof that merely mentions a filter.
- Normalizer.NormalizeAll states only that no rows are added; that it holds one record per surviving row, in order, is stated by `Normalizer.NormalizeAllOfRows`.
- SpotEngine.BuyLegs and SpotEngine.SellLegs state only the amount and side of their legs; which rows they come from, one leg per row in order, is stated by `SpotEngine.BuyLegsOfRows` and `SpotEngine.SellLegsOfRows`.
- Common.SortBy states only that the length is kept; that it sorts and permutes is stated by `Common.SortBySorted` and `Common.SortByPermutes`, which keeps those facts out of every proof that merely mentions a sort.
- SpotEngine.QuoteAmount, SpotEngine.IsBuy, SpotEngine.RunLegs, SpotEngine.SpotAnalysis, Common.HasSub, Aggregation.StyleOf, Aggregation.TradeOf and TimeFormat.FormatTimedelta carry no contract of their own, because a function's contract is taken along into every proof that mentions it: what they compute is stated by `SpotEngine.QuoteIsFirst`, `SpotEngine.LegSide`, `SpotEngine.RunLegsCoins`, `SpotEngine.SpotAnalysisBy` and `SpotEngine.SpotReportConsistent`, `Common.HasSubIsContains`, `Aggregation.ClassifiedFacts`, `Aggregation.TradeOfReadsBack` and `TimeFormat.FormatRoundTrip`.

- ContractAnalysis.ContractAnalysis allocates funding by `Accrual`, not by app.py:241-254's window share, so on the ledgers of Findings rows 2 and 3 its pnl differs from the program's. The analysis as written is `ContractAnalysis.ContractAnalysisBy` and `ContractAnalysis.AnalyzeContractTrades` with `WindowShare`; the consistency and holding lemmas hold for both rules.
- ContractAnalysis.ContractAnalysis carries no contract of its own either; it is stated by `ContractAnalysis.ContractAnalysisBy` with `Accrual`.
- ContractAnalysis.ContractFills carries no contract of its own either; it is stated by `ContractEngine.MatchContracts`, `ContractAnalysis.HoldingNonNegative` and `ContractAnalysis.FillsNeedRecords`.
- ContractAnalysis.ReportOf carries no contract of its own either; it is stated by `ContractAnalysis.ReportOfConsistent`.
- ContractEngine.GroupFills carries no contract of its own either; it is stated by `ContractAnalysis.GroupFillsNonNegative` and, through `ContractEngine.ProcessGroup`, the walk `ContractEngine.Run`.
- ContractEngine.AllFills carries no contract of its own either; it is stated by `ContractEngine.MatchContracts`, `ContractEngine.AllFillsSnoc` and `ContractAnalysis.AllFillsNonNegative`.
- Aggregation.GroupByClose carries no contract of its own either; it is stated by `Aggregation.GroupedByCloseTime` and `Aggregation.AggregationConserves`.
- Aggregation.TradeTotal carries no contract of its own either; it is stated by `Aggregation.KpiSplit` and `Aggregation.ClassifiedTotal`.
- Aggregation.StyleTotal carries no contract of its own either; it is stated by `Aggregation.KpiSplit`.
- SpotEngine.TotalFees carries no contract of its own either; it is stated by `SpotEngine.FeeOverCoins` and `SpotEngine.FeesAreTotalDebit`.
- SpotEngine.Realised carries no contract of its own either; it is stated by `SpotEngine.SpotAnalysisBy`, `SpotEngine.ProcessLegs` and `SpotEngine.RunPositive`.
- SpotEngine.LedgerTrades carries no contract of its own either; it is stated by `SpotEngine.LedgerSplit`.
- SpotEngine.LedgerFees carries no contract of its own either; it is stated by `SpotEngine.LedgerSplit`.
- SpotEngine.SpotAnalysis reads the side of a leg by the row's own sign (`Corrected`), not by app.py:106's test as written. The analysis as written is `SpotEngine.SpotAnalysisBy` and `SpotEngine.AnalyzeSpotTrades` with `AsWritten`, which `SpotEngine.SpotAsWrittenAlwaysFails` shows always ends in "No realized PnL".

Where the program's evident intent and its code differ, the model follows the code (the corrections of "## Findings" apart, whose as-written forms are modelled too):

- Fills are merged by close time alone, across contracts (app.py:299).
- With no kept rows, the batch is rejected as "No valid data" before the mixed-files check (app.py:379-383).
- USDT trade rows are spot legs of coin "USDT" like any other (app.py:84-95). A USDT leg is priced by the first USDT row at its time, which may be the leg itself.

## Findings

| source | as written | input that shows it | evidently intended | confidence | as-written member | corrected member |
|---|---|---|---|---|---|---|
| app.py:86-106 | sell amounts are made absolute (line 86) before the side test `row['Amount'] > 0` (line 106), so every leg is taken as a buy | any ledger, e.g. buy 10 X for 20 USDT then sell 10 X for 30 USDT: no fill, error "No realized PnL" | test the side by the original sign, so a negative trade row is a sale | not executed | SpotEngine.SpotAsWrittenAlwaysFails | SpotEngine.SpotRoundTrip |
| app.py:241-254 | a fill takes the funding of (open, close] scaled by matched / quantity opened in [open, close]; a settlement that falls after a partial close of the same lot is scaled down by the lot's original quantity, though only the remainder is left to carry it | OPEN 10 at t0, CLOSE 4 at t1, settlement -6 at t2, CLOSE 6 at t3: the fills take 0 and -3.6 of the -6 settled | each settlement is shared by quantity among the lots open when it is settled, so the fills carry exactly the funding settled while the position was open | not executed | ContractEngine.PartialCloseMisses | ContractEngine.PartialCloseAccrues |
| app.py:248-254 | the quantity a window's funding is divided by counts only OPENs inside [open, close], so a lot opened later than another is charged the whole window's funding over its own quantity alone | OPEN 1 at t0, OPEN 1 at t1, settlement -4 at t2, CLOSE 2 at t3: the fills take -2 and -4, -6 of the -4 settled | the same sharing among the lots open at each settlement, conserving funding | not executed | ContractEngine.OverlapOvercharges | ContractEngine.OverlapAccrues |
