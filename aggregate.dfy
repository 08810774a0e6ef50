/** Presentation of the contract fills: fills that close at the same instant
    are merged into one trade, trades are numbered and classified as day
    trades or swings by their holding period, and running totals, the KPI
    split and the cumulative pnl chart are derived from them.

    The merge is keyed by the close time alone, so fills of different
    contracts closing at the same instant are merged too. A merged trade
    sums pnl, fees, funding and quantity, takes the earliest open time and
    the first fill's contract, and averages the holding periods weighted by
    quantity (0 when the quantities sum to 0). */
module Aggregation {
  import opened Common
  import opened ContractEngine
  import opened TimeFormat

  /** One merged trade before numbering. */
  datatype Agg = Agg(closeTime: int, contract: string, pnl: real, tradeFees: real, funding: real,
                     quantity: real, openTime: int, holding: real)

  /** The summed measures of a merged trade. */
  datatype Measure = Pnl | Fees | Funding | Quantity

  datatype Style = DayTrade | Swing

  /** A numbered ("T-1", "T-2", ...), classified trade with its running totals and its holding
      period as "<days>d HH:MM:SS". */
  datatype Trade = Trade(id: string, agg: Agg, style: Style, cumulativePnl: real, cumulativeFees: real,
                         holdingText: string)

  function FillClose(f: Fill): int { f.closeTime }

  function FillPnl(f: Fill): real { f.pnl }

  function FillFees(f: Fill): real { f.tradeFees }

  function FillQuantity(f: Fill): real { f.quantity }

  /** Holding period x quantity, the numerator of the weighted average. */
  function WeightedSeconds(f: Fill): real { f.holding as real * f.quantity }

  function FillMeasure(m: Measure): Fill -> real
  {
    match m
    case Pnl => FillPnl
    case Fees => FillFees
    case Funding => FillFunding
    case Quantity => FillQuantity
  }

  function AggMeasure(a: Agg, m: Measure): real
  {
    match m
    case Pnl => a.pnl
    case Fees => a.tradeFees
    case Funding => a.funding
    case Quantity => a.quantity
  }

  function AggTotal(aggs: seq<Agg>, m: Measure): real
    decreases |aggs|
  {
    if aggs == [] then 0.0 else AggTotal(aggs[..|aggs| - 1], m) + AggMeasure(aggs[|aggs| - 1], m)
  }

  // -----------------------------------------------------------------------
  // Close times

  predicate Increasing(ts: seq<int>)
  {
    forall i, j :: 0 <= i < j < |ts| ==> ts[i] < ts[j]
  }

  function InsertTime(t: int, ts: seq<int>): (r: seq<int>)
    ensures forall x :: x in r <==> x == t || x in ts
    decreases |ts|
  {
    if ts == [] || t < ts[0] then [t] + ts
    else
      assert ts == [ts[0]] + ts[1..];
      [ts[0]] + InsertTime(t, ts[1..])
  }

  lemma {:induction false} InsertTimeIncreasing(t: int, ts: seq<int>)
    requires Increasing(ts) && t !in ts
    ensures Increasing(InsertTime(t, ts))
    decreases |ts|
  {
    if ts == [] {
    } else if t < ts[0] {
      var r := [t] + ts;
      forall i, j | 0 <= i < j < |r| ensures r[i] < r[j] {
        if i == 0 {
          assert r[j] == ts[j - 1];
          assert ts[0] <= ts[j - 1];
        } else {
          assert r[i] == ts[i - 1] && r[j] == ts[j - 1];
        }
      }
    } else {
      var rest := ts[1..];
      assert Increasing(rest) by {
        forall i, j | 0 <= i < j < |rest| ensures rest[i] < rest[j] {
          assert rest[i] == ts[i + 1] && rest[j] == ts[j + 1];
        }
      }
      assert t !in rest;
      InsertTimeIncreasing(t, rest);
      var tail := InsertTime(t, rest);
      var r := [ts[0]] + tail;
      assert t != ts[0];
      forall i, j | 0 <= i < j < |r| ensures r[i] < r[j] {
        if i == 0 {
          assert r[j] == tail[j - 1];
          assert tail[j - 1] in tail;
          if r[j] != t {
            var m :| 0 <= m < |rest| && rest[m] == r[j];
            assert ts[m + 1] == r[j];
          }
        } else {
          assert r[i] == tail[i - 1] && r[j] == tail[j - 1];
        }
      }
    }
  }

  /** The distinct close times of the fills, ascending. */
  function CloseTimes(fills: seq<Fill>): (ts: seq<int>)
    ensures Increasing(ts)
    ensures forall i :: 0 <= i < |fills| ==> fills[i].closeTime in ts
    decreases |fills|
  {
    if fills == [] then []
    else
      var init := fills[..|fills| - 1];
      var ts := CloseTimes(init);
      var f := fills[|fills| - 1];
      assert forall i :: 0 <= i < |init| ==> init[i] == fills[i];
      if f.closeTime in ts then ts
      else
        InsertTimeIncreasing(f.closeTime, ts);
        InsertTime(f.closeTime, ts)
  }

  /** Each close time listed is that of at least one fill. */
  lemma {:induction false} CloseTimesOccur(fills: seq<Fill>)
    ensures forall t :: t in CloseTimes(fills) ==> |Having(fills, FillClose, t)| > 0
    decreases |fills|
  {
    if fills != [] {
      var init := fills[..|fills| - 1];
      var f := fills[|fills| - 1];
      CloseTimesOccur(init);
      assert Having(fills, FillClose, f.closeTime) == Having(init, FillClose, f.closeTime) + [f];
      forall t | t in CloseTimes(fills) ensures |Having(fills, FillClose, t)| > 0 {
        if t != f.closeTime {
          assert t in CloseTimes(init);
          assert |Having(fills, FillClose, t)| >= |Having(init, FillClose, t)|;
        }
      }
    }
  }

  // -----------------------------------------------------------------------
  // Merging

  function MinOpen(ms: seq<Fill>): (t: int)
    requires |ms| > 0
    ensures forall k :: 0 <= k < |ms| ==> t <= ms[k].openTime
    ensures exists k :: 0 <= k < |ms| && t == ms[k].openTime
  {
    if |ms| == 1 then ms[0].openTime
    else
      var m := MinOpen(ms[1..]);
      assert forall k :: 1 <= k < |ms| ==> ms[k] == ms[1..][k - 1];
      if ms[0].openTime <= m then ms[0].openTime else m
  }

  /** The quantity-weighted mean holding period: times the total quantity
      it gives back Σ holding x quantity; 0 when the quantities sum to 0. */
  function WeightedHolding(ms: seq<Fill>): (h: real)
    ensures SumBy(ms, FillQuantity) == 0.0 ==> h == 0.0
    ensures h * SumBy(ms, FillQuantity) == SumBy(ms, WeightedSeconds) || SumBy(ms, FillQuantity) == 0.0
  {
    var w := SumBy(ms, FillQuantity);
    if w == 0.0 then 0.0 else SumBy(ms, WeightedSeconds) / w
  }

  /** The merged trade of the fills `ms` closing at t: every measure is the
      fills' sum, the open time is the earliest of theirs, the contract is
      the first fill's, and the holding period is their weighted mean. */
  function AggregateOf(t: int, ms: seq<Fill>): (a: Agg)
    requires |ms| > 0
    ensures a.closeTime == t && a.contract == ms[0].contract
    ensures forall m :: AggMeasure(a, m) == SumBy(ms, FillMeasure(m))
    ensures (forall k :: 0 <= k < |ms| ==> a.openTime <= ms[k].openTime)
         && exists k :: 0 <= k < |ms| && a.openTime == ms[k].openTime
    ensures a.quantity != 0.0 ==> a.holding * a.quantity == SumBy(ms, WeightedSeconds)
  {
    Agg(t, ms[0].contract, SumBy(ms, FillPnl), SumBy(ms, FillFees), SumBy(ms, FillFunding),
        SumBy(ms, FillQuantity), MinOpen(ms), WeightedHolding(ms))
  }

  /** One merged trade per close time in ts, each over the fills that close
      then. */
  function AggregatesOver(fills: seq<Fill>, ts: seq<int>): (aggs: seq<Agg>)
    requires forall t :: t in ts ==> |Having(fills, FillClose, t)| > 0
    ensures |aggs| == |ts|
    ensures forall i :: 0 <= i < |ts| ==> aggs[i].closeTime == ts[i]
    decreases |ts|
  {
    if ts == [] then []
    else
      var t := ts[|ts| - 1];
      AggregatesOver(fills, ts[..|ts| - 1]) + [AggregateOf(t, Having(fills, FillClose, t))]
  }

  function GroupByClose(fills: seq<Fill>): seq<Agg>
  {
    CloseTimesOccur(fills);
    AggregatesOver(fills, CloseTimes(fills))
  }

  lemma {:induction false} AggregatesOverTotal(fills: seq<Fill>, ts: seq<int>, m: Measure)
    requires forall t :: t in ts ==> |Having(fills, FillClose, t)| > 0
    ensures AggTotal(AggregatesOver(fills, ts), m) == SumOverKeys(fills, ts, FillClose, FillMeasure(m))
    decreases |ts|
  {
    if ts != [] {
      var init, t := ts[..|ts| - 1], ts[|ts| - 1];
      AggregatesOverTotal(fills, init, m);
      var prev := AggregatesOver(fills, init);
      var a := AggregateOf(t, Having(fills, FillClose, t));
      assert AggregatesOver(fills, ts) == prev + [a];
      assert (prev + [a])[..|prev + [a]| - 1] == prev;
    }
  }

  /** Merging loses and duplicates nothing: the merged trades' pnl, fees,
      funding and quantity add up to the fills'. */
  lemma AggregationConserves(fills: seq<Fill>, m: Measure)
    ensures AggTotal(GroupByClose(fills), m) == SumBy(fills, FillMeasure(m))
  {
    var ts := CloseTimes(fills);
    CloseTimesOccur(fills);
    AggregatesOverTotal(fills, ts, m);
    forall i, j | 0 <= i < j < |ts| ensures ts[i] != ts[j] {
    }
    PartitionSum(fills, ts, FillClose, FillMeasure(m));
  }

  /** The merged trades come in strictly increasing close time, one per
      distinct close time, and each is over exactly the fills closing then. */
  lemma GroupedByCloseTime(fills: seq<Fill>)
    ensures var aggs := GroupByClose(fills);
      && (forall i, j :: 0 <= i < j < |aggs| ==> aggs[i].closeTime < aggs[j].closeTime)
      && (forall k :: 0 <= k < |fills| ==> exists i :: 0 <= i < |aggs| && aggs[i].closeTime == fills[k].closeTime)
      && (forall i :: 0 <= i < |aggs| ==>
            var ms := Having(fills, FillClose, aggs[i].closeTime);
            |ms| > 0 && aggs[i] == AggregateOf(aggs[i].closeTime, ms))
  {
    var ts := CloseTimes(fills);
    var aggs := GroupByClose(fills);
    CloseTimesOccur(fills);
    forall i | 0 <= i < |aggs|
      ensures var ms := Having(fills, FillClose, aggs[i].closeTime);
        |ms| > 0 && aggs[i] == AggregateOf(aggs[i].closeTime, ms)
    {
      AggregatesOverAt(fills, ts, i);
    }
    forall k | 0 <= k < |fills| ensures exists i :: 0 <= i < |aggs| && aggs[i].closeTime == fills[k].closeTime {
      var i :| 0 <= i < |ts| && ts[i] == fills[k].closeTime;
      assert aggs[i].closeTime == ts[i];
    }
  }

  /** The i-th merged trade is the aggregate of the fills closing at ts[i]. */
  lemma {:induction false} AggregatesOverAt(fills: seq<Fill>, ts: seq<int>, i: nat)
    requires forall t :: t in ts ==> |Having(fills, FillClose, t)| > 0
    requires i < |ts|
    ensures AggregatesOver(fills, ts)[i] == AggregateOf(ts[i], Having(fills, FillClose, ts[i]))
    decreases |ts|
  {
    if i < |ts| - 1 {
      AggregatesOverAt(fills, ts[..|ts| - 1], i);
    }
  }

  lemma {:induction false} WeightedBelow(ms: seq<Fill>, lo: real)
    requires forall k :: 0 <= k < |ms| ==> ms[k].quantity >= 0.0 && ms[k].holding as real >= lo
    ensures SumBy(ms, WeightedSeconds) >= lo * SumBy(ms, FillQuantity)
    decreases |ms|
  {
    if ms != [] {
      var f := ms[|ms| - 1];
      WeightedBelow(ms[..|ms| - 1], lo);
      assert (f.holding as real - lo) * f.quantity >= 0.0;
    }
  }

  lemma {:induction false} WeightedAbove(ms: seq<Fill>, hi: real)
    requires forall k :: 0 <= k < |ms| ==> ms[k].quantity >= 0.0 && ms[k].holding as real <= hi
    ensures SumBy(ms, WeightedSeconds) <= hi * SumBy(ms, FillQuantity)
    decreases |ms|
  {
    if ms != [] {
      var f := ms[|ms| - 1];
      WeightedAbove(ms[..|ms| - 1], hi);
      assert (hi - f.holding as real) * f.quantity >= 0.0;
    }
  }

  lemma {:induction false} QuantityPositive(ms: seq<Fill>)
    requires |ms| > 0 && forall k :: 0 <= k < |ms| ==> ms[k].quantity > 0.0
    ensures SumBy(ms, FillQuantity) > 0.0
    decreases |ms|
  {
    if |ms| > 1 {
      QuantityPositive(ms[..|ms| - 1]);
    }
  }

  /** With positive quantities the weighted holding period lies between the
      shortest and the longest holding period of the merged fills. */
  lemma WeightedHoldingWithin(ms: seq<Fill>, lo: real, hi: real)
    requires |ms| > 0
    requires forall k :: 0 <= k < |ms| ==> ms[k].quantity > 0.0 && lo <= ms[k].holding as real <= hi
    ensures lo <= WeightedHolding(ms) <= hi
  {
    QuantityPositive(ms);
    WeightedBelow(ms, lo);
    WeightedAbove(ms, hi);
    var w := SumBy(ms, FillQuantity);
    var n := SumBy(ms, WeightedSeconds);
    assert WeightedHolding(ms) * w == n;
  }

  // -----------------------------------------------------------------------
  // Classification

  /** Swing exactly when the holding period exceeds the threshold, a day
      trade otherwise (a period of exactly the threshold included). */
  function StyleOf(holding: real, thresholdHours: int): Style
  {
    if holding > (thresholdHours * 3600) as real then Swing else DayTrade
  }

  function TradeOf(index: nat, a: Agg, cumulativePnl: real, cumulativeFees: real, thresholdHours: int): Trade
  {
    Trade("T-" + NatString(index + 1), a, StyleOf(a.holding, thresholdHours), cumulativePnl, cumulativeFees,
          FormatTimedelta(a.holding.Floor))
  }

  /** The trade at position `index` is numbered "T-<index+1>", carries the
      running totals given and is classified by its holding period, whose
      text reads back to the whole seconds of that period. */
  lemma TradeOfReadsBack(index: nat, a: Agg, cumulativePnl: real, cumulativeFees: real, thresholdHours: int)
    ensures var t := TradeOf(index, a, cumulativePnl, cumulativeFees, thresholdHours);
      && |t.id| > 2 && t.id[..2] == "T-" && ParseNat(t.id[2..]) == index + 1
      && t.agg == a && t.cumulativePnl == cumulativePnl && t.cumulativeFees == cumulativeFees
      && t.style == StyleOf(a.holding, thresholdHours)
      && ParseTimedelta(t.holdingText) == a.holding.Floor
  {
    NatStringRoundTrip(index + 1);
    FormatRoundTrip(a.holding.Floor);
    assert ("T-" + NatString(index + 1))[2..] == NatString(index + 1);
  }

  /** The numbered trades with running pnl and fee totals. */
  function Classified(aggs: seq<Agg>, thresholdHours: int): (trades: seq<Trade>)
    ensures |trades| == |aggs|
    decreases |aggs|
  {
    if aggs == [] then []
    else
      Classified(aggs[..|aggs| - 1], thresholdHours)
        + [TradeOf(|aggs| - 1, aggs[|aggs| - 1], AggTotal(aggs, Pnl), AggTotal(aggs, Fees), thresholdHours)]
  }

  /** The numbering and classification loop. */
  method NumberTrades(aggs: seq<Agg>, thresholdHours: int) returns (trades: seq<Trade>)
    ensures trades == Classified(aggs, thresholdHours)
  {
    trades := [];
    var cumulativePnl := 0.0;
    var cumulativeFees := 0.0;
    for i := 0 to |aggs|
      invariant trades == Classified(aggs[..i], thresholdHours)
      invariant cumulativePnl == AggTotal(aggs[..i], Pnl)
      invariant cumulativeFees == AggTotal(aggs[..i], Fees)
    {
      assert aggs[..i + 1][..i] == aggs[..i];
      cumulativePnl := cumulativePnl + aggs[i].pnl;
      cumulativeFees := cumulativeFees + aggs[i].tradeFees;
      trades := trades + [TradeOf(i, aggs[i], cumulativePnl, cumulativeFees, thresholdHours)];
    }
    assert aggs[..|aggs|] == aggs;
  }

  /** The k-th trade is built from the k-th merged trade and the running
      totals up to and including it. */
  lemma {:induction false} ClassifiedAt(aggs: seq<Agg>, thresholdHours: int, k: nat)
    requires k < |aggs|
    ensures Classified(aggs, thresholdHours)[k]
      == TradeOf(k, aggs[k], AggTotal(aggs[..k + 1], Pnl), AggTotal(aggs[..k + 1], Fees), thresholdHours)
    decreases |aggs|
  {
    var init := aggs[..|aggs| - 1];
    if k < |init| {
      ClassifiedAt(init, thresholdHours, k);
      assert init[..k + 1] == aggs[..k + 1];
    } else {
      assert aggs[..k + 1] == aggs;
    }
  }

  /** The k-th trade is the k-th merged trade, numbered "T-<k+1>", carrying
      the running totals up to and including itself; it is a swing exactly
      when its holding period exceeds the threshold, and its holding text
      reads back to the whole seconds of that period. */
  lemma ClassifiedFacts(aggs: seq<Agg>, thresholdHours: int, k: nat)
    requires k < |aggs|
    ensures var t := Classified(aggs, thresholdHours)[k];
      && |t.id| > 2 && t.id[..2] == "T-" && ParseNat(t.id[2..]) == k + 1
      && t.agg == aggs[k]
      && t.cumulativePnl == AggTotal(aggs[..k + 1], Pnl)
      && t.cumulativeFees == AggTotal(aggs[..k + 1], Fees)
      && (t.style == Swing <==> aggs[k].holding > (thresholdHours * 3600) as real)
      && ParseTimedelta(t.holdingText) == aggs[k].holding.Floor
  {
    ClassifiedAt(aggs, thresholdHours, k);
    TradeOfReadsBack(k, aggs[k], AggTotal(aggs[..k + 1], Pnl), AggTotal(aggs[..k + 1], Fees), thresholdHours);
  }

  // -----------------------------------------------------------------------
  // KPI

  function TradeTotal(trades: seq<Trade>): real
    decreases |trades|
  {
    if trades == [] then 0.0 else TradeTotal(trades[..|trades| - 1]) + trades[|trades| - 1].agg.pnl
  }

  function StyleTotal(trades: seq<Trade>, style: Style): real
    decreases |trades|
  {
    if trades == [] then 0.0
    else
      var t := trades[|trades| - 1];
      StyleTotal(trades[..|trades| - 1], style) + (if t.style == style then t.agg.pnl else 0.0)
  }

  /** Every trade is a day trade or a swing, so the two KPI parts make up the
      total. */
  lemma {:induction false} KpiSplit(trades: seq<Trade>)
    ensures TradeTotal(trades) == StyleTotal(trades, DayTrade) + StyleTotal(trades, Swing)
    decreases |trades|
  {
    if trades != [] {
      KpiSplit(trades[..|trades| - 1]);
    }
  }

  lemma {:induction false} ClassifiedTotal(aggs: seq<Agg>, thresholdHours: int)
    ensures TradeTotal(Classified(aggs, thresholdHours)) == AggTotal(aggs, Pnl)
    decreases |aggs|
  {
    if aggs != [] {
      var trades := Classified(aggs, thresholdHours);
      ClassifiedTotal(aggs[..|aggs| - 1], thresholdHours);
      assert trades[..|trades| - 1] == Classified(aggs[..|aggs| - 1], thresholdHours);
    }
  }

  /** The last running total is the KPI total. */
  lemma LastCumulativeIsTotal(aggs: seq<Agg>, thresholdHours: int)
    requires |aggs| > 0
    ensures var trades := Classified(aggs, thresholdHours);
      trades[|trades| - 1].cumulativePnl == TradeTotal(trades)
  {
    ClassifiedTotal(aggs, thresholdHours);
  }

  // -----------------------------------------------------------------------
  // Chart

  function ChartLabels(first: int, trades: seq<Trade>): (ls: seq<int>)
    ensures |ls| == |trades| + 1
  {
    [first] + seq(|trades|, i requires 0 <= i < |trades| => trades[i].agg.closeTime)
  }

  function ChartData(trades: seq<Trade>): (ds: seq<real>)
    ensures |ds| == |trades| + 1
  {
    [0.0] + seq(|trades|, i requires 0 <= i < |trades| => trades[i].cumulativePnl)
  }

  /** The chart loop. */
  method BuildChart(first: int, trades: seq<Trade>) returns (labels: seq<int>, data: seq<real>)
    ensures labels == ChartLabels(first, trades)
    ensures data == ChartData(trades)
  {
    labels := [first];
    data := [0.0];
    for i := 0 to |trades|
      invariant labels == ChartLabels(first, trades)[..i + 1]
      invariant data == ChartData(trades)[..i + 1]
    {
      labels := labels + [trades[i].agg.closeTime];
      data := data + [trades[i].cumulativePnl];
      assert ChartLabels(first, trades)[..i + 2] == ChartLabels(first, trades)[..i + 1] + [trades[i].agg.closeTime];
      assert ChartData(trades)[..i + 2] == ChartData(trades)[..i + 1] + [trades[i].cumulativePnl];
    }
    assert ChartLabels(first, trades)[..|trades| + 1] == ChartLabels(first, trades);
    assert ChartData(trades)[..|trades| + 1] == ChartData(trades);
  }

  lemma AggTotalSnoc(aggs: seq<Agg>, k: nat, m: Measure)
    requires k < |aggs|
    ensures AggTotal(aggs[..k + 1], m) == AggTotal(aggs[..k], m) + AggMeasure(aggs[k], m)
  {
    assert aggs[..k + 1][..k] == aggs[..k];
  }

  /** The chart starts at 0 and steps by each trade's pnl, ending at the KPI
      total. */
  lemma ChartSteps(aggs: seq<Agg>, thresholdHours: int)
    ensures var trades := Classified(aggs, thresholdHours);
      var data := ChartData(trades);
      && data[0] == 0.0
      && (forall k :: 0 <= k < |trades| ==> data[k + 1] == data[k] + trades[k].agg.pnl)
      && data[|trades|] == TradeTotal(trades)
  {
    var trades := Classified(aggs, thresholdHours);
    var data := ChartData(trades);
    ClassifiedTotal(aggs, thresholdHours);
    forall k | 0 <= k < |trades| ensures data[k + 1] == data[k] + trades[k].agg.pnl {
      AggTotalSnoc(aggs, k, Pnl);
      ClassifiedAt(aggs, thresholdHours, k);
      if k > 0 {
        ClassifiedAt(aggs, thresholdHours, k - 1);
      }
      assert data[k + 1] == AggTotal(aggs[..k + 1], Pnl);
      if k == 0 {
        assert aggs[..0] == [];
      } else {
        assert data[k] == trades[k - 1].cumulativePnl;
        assert (k - 1) + 1 == k;
      }
    }
    if |aggs| > 0 {
      assert aggs[..|aggs|] == aggs;
    }
  }
}
