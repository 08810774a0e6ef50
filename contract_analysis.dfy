/** The contract analysis end to end: the rows of a contract ledger are
    normalised and put in time order, every contract's trade rows are matched
    first-in first-out, the fills are merged by close time and classified,
    and the KPI, the chart and the trade table are assembled. An empty ledger
    and a ledger that yields no fill are reported as errors. */
module ContractAnalysis {
  import opened Common
  import opened Normalizer
  import opened ContractEngine
  import opened Aggregation

  datatype AnalysisError = NoContractData | NoClassifiableTrades

  /** The KPI (total, number of trades, day-trade and swing parts), the
      cumulative pnl chart and the trade table. */
  datatype ContractReport = ContractReport(
    totalPnl: real,
    tradeCount: nat,
    dayTradePnl: real,
    swingTradePnl: real,
    labels: seq<int>,
    data: seq<real>,
    trades: seq<Trade>)

  /** The surviving records in time order: all of them, each as often as it
      survived normalisation. */
  function Records(rows: seq<RawRow>): (recs: seq<Record>)
    ensures SortedBy(recs, RecordTime)
    ensures multiset(recs) == multiset(NormalizeAll(rows))
  {
    SortBySorted(NormalizeAll(rows), RecordTime);
    SortByPermutes(NormalizeAll(rows), RecordTime);
    SortBy(NormalizeAll(rows), RecordTime)
  }

  /** The fills of every contract, funding allocated by `rule`. */
  function ContractFills(rule: FundingRule, recs: seq<Record>): seq<Fill>
  {
    var trades := TradeRows(recs);
    AllFills(rule, trades, SettlementRows(recs), ContractKeys(trades))
  }

  function ReportOf(first: int, trades: seq<Trade>): ContractReport
  {
    ContractReport(TradeTotal(trades), |trades|, StyleTotal(trades, DayTrade), StyleTotal(trades, Swing),
                   ChartLabels(first, trades), ChartData(trades), trades)
  }

  lemma FillsNeedRecords(rule: FundingRule, recs: seq<Record>)
    ensures ContractFills(rule, recs) != [] ==> recs != []
  {
    if recs == [] {
      assert TradeRows(recs) == [];
    }
  }

  /** An empty ledger is rejected first; otherwise a ledger that yields no
      fill is rejected; otherwise the report over the merged, classified
      trades, whose chart starts at the earliest record. Funding is
      allocated by `rule`: `WindowShare` as the program writes it,
      `Accrual` as it is evidently intended. */
  function ContractAnalysisBy(rows: seq<RawRow>, thresholdHours: int, rule: FundingRule): (r: Result<ContractReport, AnalysisError>)
    ensures r == Err(NoContractData) <==> rows == []
    ensures r == Err(NoClassifiableTrades) <==> rows != [] && ContractFills(rule, Records(rows)) == []
  {
    if rows == [] then Err(NoContractData)
    else
      var recs := Records(rows);
      var fills := ContractFills(rule, recs);
      if fills == [] then Err(NoClassifiableTrades)
      else
        FillsNeedRecords(rule, recs);
        Ok(ReportOf(recs[0].time, Classified(GroupByClose(fills), thresholdHours)))
  }

  /** The contract analysis with funding that adds up to what was settled. */
  function ContractAnalysis(rows: seq<RawRow>, thresholdHours: int): Result<ContractReport, AnalysisError>
  {
    ContractAnalysisBy(rows, thresholdHours, Accrual)
  }

  /** The analysis: vectorised steps (normalisation, sorting, merging) as
      functions, the matching, numbering and chart loops as methods. */
  method AnalyzeContractTrades(rows: seq<RawRow>, thresholdHours: int, rule: FundingRule) returns (r: Result<ContractReport, AnalysisError>)
    ensures r == ContractAnalysisBy(rows, thresholdHours, rule)
  {
    if rows == [] {
      return Err(NoContractData);
    }
    var recs := Records(rows);
    var fills := MatchContracts(rule, recs);
    if fills == [] {
      return Err(NoClassifiableTrades);
    }
    FillsNeedRecords(rule, recs);
    var aggs := GroupByClose(fills);
    var trades := NumberTrades(aggs, thresholdHours);
    var labels, data := BuildChart(recs[0].time, trades);
    r := Ok(ContractReport(TradeTotal(trades), |trades|, StyleTotal(trades, DayTrade), StyleTotal(trades, Swing),
                           labels, data, trades));
  }

  // -----------------------------------------------------------------------
  // Properties of the report

  /** Each contract's walk is in time order, so every fill of every
      contract has a non-negative holding period. */
  lemma {:induction false} AllFillsNonNegative(rule: FundingRule, trades: seq<Record>, funding: seq<Record>, keys: seq<string>)
    ensures NonNegativeHolding(AllFills(rule, trades, funding, keys))
    decreases |keys|
  {
    if keys != [] {
      var c := keys[|keys| - 1];
      AllFillsNonNegative(rule, trades, funding, keys[..|keys| - 1]);
      GroupFillsNonNegative(rule, trades, funding, c);
      NonNegativeHoldingConcat(AllFills(rule, trades, funding, keys[..|keys| - 1]), GroupFills(rule, trades, funding, c));
    }
  }

  lemma GroupFillsNonNegative(rule: FundingRule, trades: seq<Record>, funding: seq<Record>, contract: string)
    ensures NonNegativeHolding(GroupFills(rule, trades, funding, contract))
  {
    RunHoldingNonNegative(rule, contract, SortedGroup(trades, contract), funding, GroupRows(rule, trades, funding, contract));
  }

  /** Because every contract is walked in time order, every fill of the
      analysis is held a non-negative time: its close time minus its open
      time. */
  lemma HoldingNonNegative(rule: FundingRule, rows: seq<RawRow>)
    ensures forall k :: 0 <= k < |ContractFills(rule, Records(rows))| ==>
      ContractFills(rule, Records(rows))[k].holding >= 0
  {
    var recs := Records(rows);
    AllFillsNonNegative(rule, TradeRows(recs), SettlementRows(recs), ContractKeys(TradeRows(recs)));
  }

  /** A successful report is consistent: the KPI parts add up to the total,
      which is the sum of the pnl of every fill; the chart has one point per
      trade after a leading 0 and ends at the total; and the trade count is
      the number of trades. */
  lemma ReportConsistent(rows: seq<RawRow>, thresholdHours: int, rule: FundingRule)
    requires ContractAnalysisBy(rows, thresholdHours, rule).Ok?
    ensures var rep := ContractAnalysisBy(rows, thresholdHours, rule).value;
      && rep.totalPnl == rep.dayTradePnl + rep.swingTradePnl
      && rep.totalPnl == SumBy(ContractFills(rule, Records(rows)), FillPnl)
      && rep.tradeCount == |rep.trades| == |rep.labels| - 1 == |rep.data| - 1
      && rep.data[0] == 0.0 && rep.data[|rep.data| - 1] == rep.totalPnl
  {
    var recs := Records(rows);
    var fills := ContractFills(rule, recs);
    FillsNeedRecords(rule, recs);
    assert ContractAnalysisBy(rows, thresholdHours, rule) == Ok(ReportOf(recs[0].time, Classified(GroupByClose(fills), thresholdHours)));
    ReportOfConsistent(recs[0].time, fills, thresholdHours);
  }

  /** A successful report's chart starts at the earliest time of any record. */
  lemma ChartStartsFirst(rows: seq<RawRow>, thresholdHours: int, rule: FundingRule)
    requires ContractAnalysisBy(rows, thresholdHours, rule).Ok?
    ensures var rep := ContractAnalysisBy(rows, thresholdHours, rule).value;
      |rep.labels| > 0 && forall k :: 0 <= k < |Records(rows)| ==> rep.labels[0] <= Records(rows)[k].time
  {
    var recs := Records(rows);
    var fills := ContractFills(rule, recs);
    FillsNeedRecords(rule, recs);
    assert ContractAnalysisBy(rows, thresholdHours, rule) == Ok(ReportOf(recs[0].time, Classified(GroupByClose(fills), thresholdHours)));
    ReportOfConsistent(recs[0].time, fills, thresholdHours);
    FirstIsEarliest(recs);
  }

  lemma FirstIsEarliest(recs: seq<Record>)
    requires recs != [] && SortedBy(recs, RecordTime)
    ensures forall k :: 0 <= k < |recs| ==> recs[0].time <= recs[k].time
  {
    forall k | 0 < k < |recs| ensures recs[0].time <= recs[k].time {
      assert RecordTime(recs[0]) <= RecordTime(recs[k]);
    }
  }

  /** ReportConsistent for the report over given fills. */
  lemma ReportOfConsistent(first: int, fills: seq<Fill>, thresholdHours: int)
    ensures var rep := ReportOf(first, Classified(GroupByClose(fills), thresholdHours));
      && rep.totalPnl == rep.dayTradePnl + rep.swingTradePnl
      && rep.totalPnl == SumBy(fills, FillPnl)
      && rep.tradeCount == |rep.trades| == |rep.labels| - 1 == |rep.data| - 1
      && rep.data[0] == 0.0 && rep.data[|rep.data| - 1] == rep.totalPnl
      && rep.labels[0] == first
  {
    var aggs := GroupByClose(fills);
    var trades := Classified(aggs, thresholdHours);
    KpiSplit(trades);
    ClassifiedTotal(aggs, thresholdHours);
    AggregationConserves(fills, Pnl);
    ChartSteps(aggs, thresholdHours);
  }
}
