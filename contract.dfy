/** The contract engine: FIFO matching of futures OPEN and CLOSE trades and
    the allocation of each close's cash flow, fees and funding to the opens
    it closes.

    The trade rows (Action OPEN or CLOSE and Type TRADE) are grouped by
    contract, groups in ascending contract order, and each group is re-sorted
    by time. Within a group, in time order, an OPEN enqueues a lot (its
    quantity, fee and time) and a CLOSE consumes lots first-in-first-out.
    Each match against an open lot becomes one fill that carries:
    - the close's cash flow and fee in proportion matched / close quantity;
    - the lot's fee in proportion matched / the lot's remaining quantity;
    - a share of the contract's funding settlements.

    The funding share is modelled under two rules. `WindowShare` is the
    code's rule: the funding settled in (open time, close time], times
    matched / the quantity of the group's OPEN rows timed in [open time,
    close time]. It neither hands out every settlement nor keeps the shares
    within what was settled (PartialCloseMisses, OverlapOvercharges). `Accrual` is the intended
    allocation: each settlement is spread over the lots open at that moment
    by their quantity, each lot keeps its funding per unit, and a fill takes
    the funding per unit of the units it closes (FundingConserved). */
module ContractEngine {
  import opened Common
  import opened Fifo
  import opened Normalizer

  /** What an open lot remembers: its fee, its time, and (under Accrual) the
      funding it has accrued per unit since it was opened. */
  datatype OpenInfo = OpenInfo(fee: real, time: int, fundingPerUnit: real)

  /** One matched slice of a position. `holding` is close time - open time
      in seconds; `pnl` is cash flow share + open fee share + close fee share
      + funding share; `tradeFees` is the two fee shares. */
  datatype Fill = Fill(contract: string, pnl: real, holding: int, openTime: int, closeTime: int,
                       funding: real, tradeFees: real, quantity: real)

  /** One contract's matching state: the fills so far and the open lots. */
  datatype GroupState = GroupState(fills: seq<Fill>, open: seq<Lot<OpenInfo>>)

  /** How a fill's funding share is computed: the code's time-window share,
      or accrual over the lots open at each settlement. */
  datatype FundingRule = WindowShare | Accrual

  predicate IsOpen(r: Record) { r.action == Some("OPEN") }

  predicate IsClose(r: Record) { r.action == Some("CLOSE") }

  predicate IsTradeAction(r: Record) { (IsOpen(r) || IsClose(r)) && r.kind == Some("TRADE") }

  predicate IsSettlement(r: Record) { r.kind == Some("SETTLEMENT") }

  function RecordContract(r: Record): Option<string> { r.contract }

  function FillFunding(f: Fill): real { f.funding }

  function PerUnit(info: OpenInfo): real { info.fundingPerUnit }

  /** part / whole, or 0 when whole is not positive. */
  function Ratio(part: real, whole: real): (q: real)
    ensures whole > 0.0 ==> q * whole == part
    ensures whole <= 0.0 ==> q == 0.0
  {
    if whole > 0.0 then part / whole else 0.0
  }

  /** The part of `amount` that falls on `q` of `total` units sharing it
      evenly. */
  function Portion(amount: real, q: real, total: real): real
  {
    if total > 0.0 then amount / total * q else 0.0
  }

  // -----------------------------------------------------------------------
  // Allocation of one match

  /** The close's cash flow in proportion matched / close quantity (none
      when the close quantity is not positive). */
  function ClosePnlPart(close: Record, m: Match<OpenInfo>): (r: real)
    ensures close.quantity > 0.0 ==> r * close.quantity == close.cashFlow * m.matched
    ensures close.quantity <= 0.0 ==> r == 0.0
  {
    var q := Ratio(m.matched, close.quantity);
    assert close.cashFlow * q * close.quantity == close.cashFlow * (q * close.quantity);
    close.cashFlow * q
  }

  /** The close's fee in the same proportion. */
  function CloseFeePart(close: Record, m: Match<OpenInfo>): (r: real)
    ensures close.quantity > 0.0 ==> r * close.quantity == close.feePaid * m.matched
    ensures close.quantity <= 0.0 ==> r == 0.0
  {
    var q := Ratio(m.matched, close.quantity);
    assert close.feePaid * q * close.quantity == close.feePaid * (q * close.quantity);
    close.feePaid * q
  }

  /** The lot's fee, in proportion to the match over the lot's quantity as it
      stands at the match (not its original quantity). */
  function OpenFeePart(m: Match<OpenInfo>): (r: real)
    ensures m.available > 0.0 ==> r * m.available == m.info.fee * m.matched
    ensures m.available <= 0.0 ==> r == 0.0
  {
    var q := Ratio(m.matched, m.available);
    assert m.info.fee * q * m.available == m.info.fee * (q * m.available);
    m.info.fee * q
  }

  /** Funding settled on the contract in the window (from, to]; an empty
      window holds none. */
  function FundingSum(funding: seq<Record>, contract: string, from: int, to: int): (r: real)
    ensures to <= from ==> r == 0.0
    decreases |funding|
  {
    if funding == [] then 0.0
    else
      var r := funding[|funding| - 1];
      FundingSum(funding[..|funding| - 1], contract, from, to)
        + (if r.contract == Some(contract) && from < r.time <= to then r.change else 0.0)
  }

  /** Quantity of the group's OPEN rows timed in [from, to]; none when the
      window is empty. */
  function OpenQuantityIn(group: seq<Record>, from: int, to: int): (r: real)
    ensures to < from ==> r == 0.0
    decreases |group|
  {
    if group == [] then 0.0
    else
      var r := group[|group| - 1];
      OpenQuantityIn(group[..|group| - 1], from, to)
        + (if IsOpen(r) && from <= r.time <= to then r.quantity else 0.0)
  }

  /** The code's funding share: the window's funding in proportion matched /
      quantity opened in the window, or nothing when none was opened. */
  function FundingPart(contract: string, group: seq<Record>, funding: seq<Record>, close: Record, m: Match<OpenInfo>): (r: real)
    ensures var inPeriod := OpenQuantityIn(group, m.info.time, close.time);
      && (inPeriod > 0.0 ==> r * inPeriod == FundingSum(funding, contract, m.info.time, close.time) * m.matched)
      && (inPeriod <= 0.0 ==> r == 0.0)
  {
    var inPeriod := OpenQuantityIn(group, m.info.time, close.time);
    if inPeriod > 0.0 then
      var q := m.matched / inPeriod;
      assert q * inPeriod == m.matched;
      assert FundingSum(funding, contract, m.info.time, close.time) * q * inPeriod
          == FundingSum(funding, contract, m.info.time, close.time) * (q * inPeriod);
      FundingSum(funding, contract, m.info.time, close.time) * q
    else 0.0
  }

  /** The fill of one match: matched quantity, open and close time, holding
      period, the two fee shares as trade fees, the funding share of the
      rule, and as pnl the cash flow share plus fees plus funding. */
  function FillOf(rule: FundingRule, contract: string, group: seq<Record>, funding: seq<Record>, close: Record,
                  m: Match<OpenInfo>): (f: Fill)
    ensures f.contract == contract && f.quantity == m.matched
    ensures f.openTime == m.info.time && f.closeTime == close.time && f.holding == f.closeTime - f.openTime
    ensures f.tradeFees == OpenFeePart(m) + CloseFeePart(close, m)
    ensures f.pnl == ClosePnlPart(close, m) + f.tradeFees + f.funding
    ensures rule == WindowShare ==> f.funding == FundingPart(contract, group, funding, close, m)
    ensures rule == Accrual ==> f.funding == Carried(m, PerUnit)
  {
    var openFee := OpenFeePart(m);
    var closeFee := CloseFeePart(close, m);
    var fundingPart := match rule
      case WindowShare => FundingPart(contract, group, funding, close, m)
      case Accrual => Carried(m, PerUnit);
    Fill(contract, ClosePnlPart(close, m) + openFee + closeFee + fundingPart, close.time - m.info.time,
         m.info.time, close.time, fundingPart, openFee + closeFee, m.matched)
  }

  function CloseFills(rule: FundingRule, contract: string, group: seq<Record>, funding: seq<Record>, close: Record,
                      ms: seq<Match<OpenInfo>>): (fs: seq<Fill>)
    ensures |fs| == |ms|
  {
    seq(|ms|, k requires 0 <= k < |ms| => FillOf(rule, contract, group, funding, close, ms[k]))
  }

  // -----------------------------------------------------------------------
  // Funding accrual

  /** Total quantity of the open lots. */
  function OpenQuantity(open: seq<Lot<OpenInfo>>): real
  {
    if open == [] then 0.0 else open[0].quantity + OpenQuantity(open[1..])
  }

  /** Every lot's funding per unit raised by rate; nothing else changes. */
  function AccrueBy(open: seq<Lot<OpenInfo>>, rate: real): (r: seq<Lot<OpenInfo>>)
    ensures |r| == |open|
    ensures forall k :: 0 <= k < |r| ==>
      r[k] == open[k].(info := open[k].info.(fundingPerUnit := open[k].info.fundingPerUnit + rate))
  {
    if open == [] then []
    else
      var tail := AccrueBy(open[1..], rate);
      assert forall k :: 1 <= k < |open| ==> open[1..][k - 1] == open[k];
      [open[0].(info := open[0].info.(fundingPerUnit := open[0].info.fundingPerUnit + rate))] + tail
  }

  lemma {:induction false} AccrueByAdds(open: seq<Lot<OpenInfo>>, rate: real)
    ensures WeightedTotal(AccrueBy(open, rate), PerUnit) == WeightedTotal(open, PerUnit) + rate * OpenQuantity(open)
    decreases |open|
  {
    if open != [] {
      AccrueByAdds(open[1..], rate);
      var r := AccrueBy(open, rate);
      assert r[1..] == AccrueBy(open[1..], rate);
      var p, q := open[0].info.fundingPerUnit, open[0].quantity;
      assert (p + rate) * q == p * q + rate * q;
    }
  }

  /** A settlement of `amount`: the open lots share it by quantity, as a raise
      of their funding per unit. With no positive open quantity it reaches no
      lot. Quantities, fees and times are kept. */
  function Accrue(open: seq<Lot<OpenInfo>>, amount: real): (r: seq<Lot<OpenInfo>>)
    ensures |r| == |open|
    ensures forall k :: 0 <= k < |r| ==>
      r[k].quantity == open[k].quantity && r[k].info.fee == open[k].info.fee && r[k].info.time == open[k].info.time
  {
    var q := OpenQuantity(open);
    if q > 0.0 then AccrueBy(open, amount / q) else open
  }

  /** The lots receive exactly the settlement whenever a positive quantity is
      open, and nothing otherwise. */
  lemma AccrueShares(open: seq<Lot<OpenInfo>>, amount: real)
    ensures WeightedTotal(Accrue(open, amount), PerUnit)
      == WeightedTotal(open, PerUnit) + (if OpenQuantity(open) > 0.0 then amount else 0.0)
  {
    var q := OpenQuantity(open);
    if q > 0.0 {
      AccrueByAdds(open, amount / q);
    }
  }

  // -----------------------------------------------------------------------
  // Matching within one contract

  function OpenLot(r: Record): Lot<OpenInfo>
  {
    Lot(r.quantity, OpenInfo(r.feePaid, r.time, 0.0))
  }

  /** Under Accrual a settlement row accrues to the open lots. */
  predicate Accrues(rule: FundingRule, row: Record)
  {
    rule == Accrual && IsSettlement(row)
  }

  /** One row of the walk: a settlement accrues (Accrual only), an OPEN
      enqueues a lot, a CLOSE consumes lots and records one fill per match.
      Fills are only ever appended, and at most one lot is added. */
  function Step(rule: FundingRule, contract: string, group: seq<Record>, funding: seq<Record>, st: GroupState,
                row: Record): (r: GroupState)
    ensures |r.fills| >= |st.fills| && r.fills[..|st.fills|] == st.fills
    ensures |r.open| <= |st.open| + 1
  {
    if Accrues(rule, row) then GroupState(st.fills, Accrue(st.open, row.change))
    else if IsOpen(row) then GroupState(st.fills, st.open + [OpenLot(row)])
    else if IsClose(row) then
      var o := Consume(st.open, row.quantity);
      GroupState(st.fills + CloseFills(rule, contract, group, funding, row, o.matches), o.rest)
    else st
  }

  /** The rows processed in order from no open lots; never more lots open
      than rows seen. */
  function Run(rule: FundingRule, contract: string, group: seq<Record>, funding: seq<Record>, rows: seq<Record>): (r: GroupState)
    ensures |r.open| <= |rows|
    decreases |rows|
  {
    if rows == [] then GroupState([], [])
    else Step(rule, contract, group, funding, Run(rule, contract, group, funding, rows[..|rows| - 1]), rows[|rows| - 1])
  }

  /** The matching loop over one contract's rows. */
  method ProcessGroup(rule: FundingRule, contract: string, group: seq<Record>, funding: seq<Record>, rows: seq<Record>)
    returns (fills: seq<Fill>, open: seq<Lot<OpenInfo>>)
    ensures GroupState(fills, open) == Run(rule, contract, group, funding, rows)
  {
    fills := [];
    open := [];
    for i := 0 to |rows|
      invariant GroupState(fills, open) == Run(rule, contract, group, funding, rows[..i])
    {
      var row := rows[i];
      assert rows[..i + 1][..i] == rows[..i];
      if rule == Accrual && row.kind == Some("SETTLEMENT") {
        open := Accrue(open, row.change);
      } else if row.action == Some("OPEN") {
        open := open + [Lot(row.quantity, OpenInfo(row.feePaid, row.time, 0.0))];
      } else if row.action == Some("CLOSE") {
        var matches, rest := ConsumeQueue(open, row.quantity);
        fills := fills + CloseFills(rule, contract, group, funding, row, matches);
        open := rest;
      }
    }
    assert rows[..|rows|] == rows;
  }

  // -----------------------------------------------------------------------
  // Contract order

  /** Python's ordering of strings: lexicographic by code point. */
  predicate StrLess(a: string, b: string)
    decreases |a|
  {
    if a == [] then b != []
    else if b == [] then false
    else if a[0] != b[0] then a[0] < b[0]
    else StrLess(a[1..], b[1..])
  }

  lemma {:induction false} StrLessIrreflexive(a: string)
    ensures !StrLess(a, a)
    decreases |a|
  {
    if a != [] {
      StrLessIrreflexive(a[1..]);
    }
  }

  lemma {:induction false} StrLessTransitive(a: string, b: string, c: string)
    requires StrLess(a, b) && StrLess(b, c)
    ensures StrLess(a, c)
    decreases |a|
  {
    if a != [] && a[0] == b[0] && b[0] == c[0] {
      StrLessTransitive(a[1..], b[1..], c[1..]);
    }
  }

  lemma {:induction false} StrLessTotal(a: string, b: string)
    ensures a == b || StrLess(a, b) || StrLess(b, a)
    decreases |a|
  {
    if a != [] && b != [] && a[0] == b[0] {
      StrLessTotal(a[1..], b[1..]);
      assert a == [a[0]] + a[1..] && b == [b[0]] + b[1..];
    }
  }

  predicate StrictlyOrdered(keys: seq<string>)
  {
    forall i, j :: 0 <= i < j < |keys| ==> StrLess(keys[i], keys[j])
  }

  function InsertKey(k: string, keys: seq<string>): (r: seq<string>)
    ensures forall c :: c in r <==> c == k || c in keys
    decreases |keys|
  {
    if keys == [] || StrLess(k, keys[0]) then [k] + keys
    else
      assert keys == [keys[0]] + keys[1..];
      [keys[0]] + InsertKey(k, keys[1..])
  }

  lemma {:induction false} InsertKeyOrdered(k: string, keys: seq<string>)
    requires StrictlyOrdered(keys) && k !in keys
    ensures StrictlyOrdered(InsertKey(k, keys))
    decreases |keys|
  {
    if keys == [] {
    } else if StrLess(k, keys[0]) {
      var r := [k] + keys;
      forall i, j | 0 <= i < j < |r| ensures StrLess(r[i], r[j]) {
        if i == 0 {
          if j > 1 {
            StrLessTransitive(k, keys[0], keys[j - 1]);
          }
        } else {
          assert r[i] == keys[i - 1] && r[j] == keys[j - 1];
        }
      }
    } else {
      StrLessTotal(k, keys[0]);
      var tail := InsertKey(k, keys[1..]);
      InsertKeyOrdered(k, keys[1..]);
      var r := [keys[0]] + tail;
      forall i, j | 0 <= i < j < |r| ensures StrLess(r[i], r[j]) {
        if i == 0 {
          assert r[j] in tail;
          if r[j] != k {
            var m :| 0 <= m < |keys[1..]| && keys[1..][m] == r[j];
            assert keys[m + 1] == r[j];
          }
        } else {
          assert r[i] == tail[i - 1] && r[j] == tail[j - 1];
        }
      }
    }
  }

  /** The distinct contracts of the trade rows in ascending order; every row
      with a contract has its contract here. */
  function ContractKeys(trades: seq<Record>): (keys: seq<string>)
    ensures StrictlyOrdered(keys)
    ensures forall i :: 0 <= i < |trades| && trades[i].contract.Some? ==> trades[i].contract.value in keys
    decreases |trades|
  {
    if trades == [] then []
    else
      var init := trades[..|trades| - 1];
      var keys := ContractKeys(init);
      var r := trades[|trades| - 1];
      assert forall i :: 0 <= i < |init| ==> init[i] == trades[i];
      if r.contract.None? || r.contract.value in keys then keys
      else
        InsertKeyOrdered(r.contract.value, keys);
        InsertKey(r.contract.value, keys)
  }

  /** Each contract listed has at least one trade row. */
  lemma {:induction false} ContractKeysOccur(trades: seq<Record>)
    ensures forall c :: c in ContractKeys(trades) ==> |Having(trades, RecordContract, Some(c))| > 0
    decreases |trades|
  {
    if trades != [] {
      var init := trades[..|trades| - 1];
      var r := trades[|trades| - 1];
      ContractKeysOccur(init);
      assert Having(trades, RecordContract, r.contract) == Having(init, RecordContract, r.contract) + [r];
      forall c | c in ContractKeys(trades) ensures |Having(trades, RecordContract, Some(c))| > 0 {
        if Some(c) != r.contract {
          assert c in ContractKeys(init);
          assert |Having(trades, RecordContract, Some(c))| >= |Having(init, RecordContract, Some(c))|;
        }
      }
    }
  }

  lemma OrderedDistinct(keys: seq<string>)
    requires StrictlyOrdered(keys)
    ensures Distinct(keys)
  {
    forall i, j | 0 <= i < j < |keys| ensures keys[i] != keys[j] {
      StrLessIrreflexive(keys[i]);
    }
  }

  function GroupOf(trades: seq<Record>, contract: string): seq<Record>
  {
    Having(trades, RecordContract, Some(contract))
  }

  /** A contract's trade rows re-sorted by time: the same rows, in time
      order. */
  function SortedGroup(trades: seq<Record>, contract: string): (g: seq<Record>)
    ensures SortedBy(g, RecordTime)
    ensures multiset(g) == multiset(GroupOf(trades, contract))
  {
    SortBySorted(GroupOf(trades, contract), RecordTime);
    SortByPermutes(GroupOf(trades, contract), RecordTime);
    SortBy(GroupOf(trades, contract), RecordTime)
  }

  /** Re-sorting a contract's rows by time changes nothing when the trade
      rows are already in time order. */
  lemma GroupAlreadySorted(trades: seq<Record>, contract: string)
    requires SortedBy(trades, RecordTime)
    ensures SortedGroup(trades, contract) == GroupOf(trades, contract)
  {
    HavingSorted(trades, RecordContract, Some(contract), RecordTime);
    SortByIdentity(GroupOf(trades, contract), RecordTime);
  }

  function ContractSettlements(funding: seq<Record>, contract: string): seq<Record>
  {
    Having(funding, RecordContract, Some(contract))
  }

  /** The rows one contract's walk goes through, in time order: under
      WindowShare the re-sorted group alone; under Accrual the contract's
      settlements merged in, the (stable) sort putting a settlement ahead
      of trade rows of the same time, so that it reaches the lots opened
      before it and the closes after it, as the window (open, close]
      does. */
  function GroupRows(rule: FundingRule, trades: seq<Record>, funding: seq<Record>, contract: string): (rows: seq<Record>)
    ensures SortedBy(rows, RecordTime)
    ensures rule == WindowShare ==> rows == SortedGroup(trades, contract)
    ensures rule == Accrual ==>
      multiset(rows) == multiset(ContractSettlements(funding, contract)) + multiset(GroupOf(trades, contract))
  {
    var g := SortedGroup(trades, contract);
    match rule
    case WindowShare => g
    case Accrual =>
      var merged := ContractSettlements(funding, contract) + g;
      SortBySorted(merged, RecordTime);
      SortByPermutes(merged, RecordTime);
      SortBy(merged, RecordTime)
  }

  function GroupFills(rule: FundingRule, trades: seq<Record>, funding: seq<Record>, contract: string): seq<Fill>
  {
    Run(rule, contract, SortedGroup(trades, contract), funding, GroupRows(rule, trades, funding, contract)).fills
  }

  /** The fills of the contracts in `keys`, contract after contract. */
  function AllFills(rule: FundingRule, trades: seq<Record>, funding: seq<Record>, keys: seq<string>): seq<Fill>
    decreases |keys|
  {
    if keys == [] then []
    else AllFills(rule, trades, funding, keys[..|keys| - 1]) + GroupFills(rule, trades, funding, keys[|keys| - 1])
  }

  /** Only trade rows, and all of them, each as often as it occurs. */
  function TradeRows(records: seq<Record>): (trades: seq<Record>)
    ensures forall r :: r in trades <==> r in records && IsTradeAction(r)
    ensures forall r :: multiset(trades)[r] == if IsTradeAction(r) then multiset(records)[r] else 0
  {
    FilterComplete(records, IsTradeAction);
    FilterCounts(records, IsTradeAction);
    Filter(records, IsTradeAction)
  }

  /** Only settlement rows, and all of them, each as often as it occurs. */
  function SettlementRows(records: seq<Record>): (funding: seq<Record>)
    ensures forall r :: r in funding <==> r in records && IsSettlement(r)
    ensures forall r :: multiset(funding)[r] == if IsSettlement(r) then multiset(records)[r] else 0
  {
    FilterComplete(records, IsSettlement);
    FilterCounts(records, IsSettlement);
    Filter(records, IsSettlement)
  }

  /** The contract loop: every contract's group matched in ascending
      contract order. */
  method MatchContracts(rule: FundingRule, records: seq<Record>) returns (fills: seq<Fill>)
    ensures fills == AllFills(rule, TradeRows(records), SettlementRows(records), ContractKeys(TradeRows(records)))
  {
    var trades := TradeRows(records);
    var funding := SettlementRows(records);
    var keys := ContractKeys(trades);
    fills := [];
    for i := 0 to |keys|
      invariant fills == AllFills(rule, trades, funding, keys[..i])
    {
      AllFillsSnoc(rule, trades, funding, keys, i);
      var group := SortedGroup(trades, keys[i]);
      var rows := GroupRows(rule, trades, funding, keys[i]);
      var groupFills, _ := ProcessGroup(rule, keys[i], group, funding, rows);
      fills := fills + groupFills;
    }
    assert keys[..|keys|] == keys;
  }

  lemma AllFillsSnoc(rule: FundingRule, trades: seq<Record>, funding: seq<Record>, keys: seq<string>, i: nat)
    requires i < |keys|
    ensures AllFills(rule, trades, funding, keys[..i + 1])
      == AllFills(rule, trades, funding, keys[..i]) + GroupFills(rule, trades, funding, keys[i])
  {
    assert keys[..i + 1][..i] == keys[..i];
  }

  // -----------------------------------------------------------------------
  // Properties of one close

  function FillQuantityTotal(fs: seq<Fill>): real
  {
    if fs == [] then 0.0 else fs[0].quantity + FillQuantityTotal(fs[1..])
  }

  lemma {:induction false} CloseFillsQuantity(rule: FundingRule, contract: string, group: seq<Record>, funding: seq<Record>,
                                              close: Record, ms: seq<Match<OpenInfo>>)
    ensures FillQuantityTotal(CloseFills(rule, contract, group, funding, close, ms)) == TotalMatched(ms)
    decreases |ms|
  {
    if ms != [] {
      var fs, tail := CloseFills(rule, contract, group, funding, close, ms), CloseFills(rule, contract, group, funding, close, ms[1..]);
      forall k | 0 <= k < |tail| ensures fs[1..][k] == tail[k] {
        assert ms[1..][k] == ms[k + 1];
      }
      assert fs[1..] == tail;
      CloseFillsQuantity(rule, contract, group, funding, close, ms[1..]);
    }
  }

  /** The fills of one CLOSE: the k-th is against the k-th open lot (oldest
      first), opened at that lot's time and closed at the row's time; the
      fills close at most the row's quantity, and all of it unless the open
      lots ran out. */
  lemma CloseIsFifo(rule: FundingRule, contract: string, group: seq<Record>, funding: seq<Record>, st: GroupState, close: Record)
    requires IsClose(close) && !Accrues(rule, close) && close.quantity > 0.0
    ensures var next := Step(rule, contract, group, funding, st, close);
      var added := next.fills[|st.fills|..];
      && next.fills[..|st.fills|] == st.fills
      && |added| <= |st.open|
      && (forall k :: 0 <= k < |added| ==>
            && added[k].contract == contract
            && added[k].openTime == st.open[k].info.time
            && added[k].closeTime == close.time
            && added[k].holding == close.time - st.open[k].info.time)
      && FillQuantityTotal(added) <= close.quantity
      && (next.open != [] ==> FillQuantityTotal(added) == close.quantity)
  {
    var o := Consume(st.open, close.quantity);
    ConsumeIsFifo(st.open, close.quantity);
    ConsumeConserves(st.open, close.quantity);
    CloseFillsQuantity(rule, contract, group, funding, close, o.matches);
    var next := Step(rule, contract, group, funding, st, close);
    assert next.fills == st.fills + CloseFills(rule, contract, group, funding, close, o.matches);
    assert next.fills[|st.fills|..] == CloseFills(rule, contract, group, funding, close, o.matches);
  }

  /** Sum over the matches of amount x matched / whole. */
  function ShareTotal(amount: real, whole: real, ms: seq<Match<OpenInfo>>): real
  {
    if ms == [] then 0.0 else amount * Ratio(ms[0].matched, whole) + ShareTotal(amount, whole, ms[1..])
  }

  lemma {:induction false} ShareTotalProportional(amount: real, whole: real, ms: seq<Match<OpenInfo>>)
    requires whole > 0.0
    ensures ShareTotal(amount, whole, ms) * whole == amount * TotalMatched(ms)
    decreases |ms|
  {
    if ms != [] {
      ShareTotalProportional(amount, whole, ms[1..]);
      var q := Ratio(ms[0].matched, whole);
      assert q * whole == ms[0].matched;
      calc {
        ShareTotal(amount, whole, ms) * whole;
        (amount * q + ShareTotal(amount, whole, ms[1..])) * whole;
        amount * (q * whole) + ShareTotal(amount, whole, ms[1..]) * whole;
        amount * ms[0].matched + amount * TotalMatched(ms[1..]);
      }
    }
  }

  /** A CLOSE hands out its cash flow and its fee in proportion to what it
      matched: all of both when it is matched in full, never more in
      magnitude. */
  lemma CloseShareAllocated(open: seq<Lot<OpenInfo>>, close: Record)
    requires close.quantity > 0.0
    ensures var o := Consume(open, close.quantity);
      && ShareTotal(close.cashFlow, close.quantity, o.matches) * close.quantity == close.cashFlow * TotalMatched(o.matches)
      && ShareTotal(close.feePaid, close.quantity, o.matches) * close.quantity == close.feePaid * TotalMatched(o.matches)
      && (o.rest != [] ==>
            && ShareTotal(close.cashFlow, close.quantity, o.matches) == close.cashFlow
            && ShareTotal(close.feePaid, close.quantity, o.matches) == close.feePaid)
  {
    ShareAllocated(open, close.quantity, close.cashFlow);
    ShareAllocated(open, close.quantity, close.feePaid);
  }

  /** CloseShareAllocated for one amount of the close. */
  lemma ShareAllocated(open: seq<Lot<OpenInfo>>, whole: real, amount: real)
    requires whole > 0.0
    ensures var o := Consume(open, whole);
      && ShareTotal(amount, whole, o.matches) * whole == amount * TotalMatched(o.matches)
      && (o.rest != [] ==> ShareTotal(amount, whole, o.matches) == amount)
  {
    var o := Consume(open, whole);
    ConsumeConserves(open, whole);
    ShareTotalProportional(amount, whole, o.matches);
    if o.rest != [] {
      ShareOfWhole(amount, whole, o.matches);
    }
  }

  lemma ShareOfWhole(amount: real, whole: real, ms: seq<Match<OpenInfo>>)
    requires whole > 0.0 && TotalMatched(ms) == whole
    ensures ShareTotal(amount, whole, ms) == amount
  {
    ShareTotalProportional(amount, whole, ms);
    var s := ShareTotal(amount, whole, ms);
    assert (s - amount) * whole == 0.0;
  }

  /** The fills' close-side shares are ShareTotal of the close's amounts. */
  lemma {:induction false} CloseSharesAreFillParts(close: Record, ms: seq<Match<OpenInfo>>)
    ensures ShareTotal(close.cashFlow, close.quantity, ms) == SumParts(close, ms, true)
    ensures ShareTotal(close.feePaid, close.quantity, ms) == SumParts(close, ms, false)
    decreases |ms|
  {
    if ms != [] {
      CloseSharesAreFillParts(close, ms[1..]);
    }
  }

  /** Sum over the matches of ClosePnlPart (cash) or CloseFeePart (fee). */
  function SumParts(close: Record, ms: seq<Match<OpenInfo>>, cash: bool): real
  {
    if ms == [] then 0.0
    else (if cash then ClosePnlPart(close, ms[0]) else CloseFeePart(close, ms[0])) + SumParts(close, ms[1..], cash)
  }

  /** A lot closed in one match passes on exactly its fee. */
  lemma FullLotFee(m: Match<OpenInfo>)
    requires m.available > 0.0 && m.matched == m.available
    ensures OpenFeePart(m) == m.info.fee
  {
  }

  /** A lot closed in two steps passes on more than its fee: the second step
      measures against what was left, so the shares are fee x a / q and then
      the whole fee again. */
  lemma SplitLotFee(q: real, info: OpenInfo, a: real, b: real)
    requires 0.0 < a && q - a > EPSILON && b >= q - a
    ensures var first := Consume([Lot(q, info)], a);
      var second := Consume(first.rest, b);
      && first.matches == [Match(info, q, a)]
      && first.rest == [Lot(q - a, info)]
      && second.matches == [Match(info, q - a, q - a)]
      && OpenFeePart(first.matches[0]) + OpenFeePart(second.matches[0]) == info.fee * (a / q) + info.fee
  {
    var lot := Lot(q, info);
    assert Consume([lot], a) == Outcome([Match(info, q, a)] + Consume([lot.(quantity := q - a)], 0.0).matches,
                                        Consume([lot.(quantity := q - a)], 0.0).rest);
    var left := Lot(q - a, info);
    assert Consume([left], b) == Outcome([Match(info, q - a, q - a)] + Consume([], b - (q - a)).matches,
                                         Consume([], b - (q - a)).rest);
  }

  // -----------------------------------------------------------------------
  // Funding as the code shares it

  /** Funding windows tile: (from, to] splits at any mid point. */
  lemma {:induction false} FundingWindowsTile(funding: seq<Record>, contract: string, from: int, mid: int, to: int)
    requires from <= mid <= to
    ensures FundingSum(funding, contract, from, to) == FundingSum(funding, contract, from, mid) + FundingSum(funding, contract, mid, to)
    decreases |funding|
  {
    if funding != [] {
      FundingWindowsTile(funding[..|funding| - 1], contract, from, mid, to);
    }
  }

  /** Settlements of other contracts or outside the window never count. */
  lemma {:induction false} FundingIgnoresOthers(funding: seq<Record>, contract: string, from: int, to: int)
    requires forall i :: 0 <= i < |funding| ==>
      funding[i].contract != Some(contract) || funding[i].time <= from || funding[i].time > to
    ensures FundingSum(funding, contract, from, to) == 0.0
    decreases |funding|
  {
    if funding != [] {
      FundingIgnoresOthers(funding[..|funding| - 1], contract, from, to);
    }
  }

  /** When the matched quantity is all that was opened in the window, the
      fill carries all of the window's funding. */
  lemma SoleOpenTakesAllFunding(contract: string, group: seq<Record>, funding: seq<Record>, close: Record, m: Match<OpenInfo>)
    requires OpenQuantityIn(group, m.info.time, close.time) == m.matched > 0.0
    ensures FundingPart(contract, group, funding, close, m) == FundingSum(funding, contract, m.info.time, close.time)
  {
    var s := FundingSum(funding, contract, m.info.time, close.time);
    var r := FundingPart(contract, group, funding, close, m);
    assert (r - s) * m.matched == 0.0;
  }

  // -----------------------------------------------------------------------
  // Funding by accrual

  /** The settlements that reach open lots under Accrual: each settlement of
      the walk that arrives while a positive quantity is open. */
  function Distributed(contract: string, group: seq<Record>, funding: seq<Record>, rows: seq<Record>): real
    decreases |rows|
  {
    if rows == [] then 0.0
    else
      var init, row := rows[..|rows| - 1], rows[|rows| - 1];
      Distributed(contract, group, funding, init)
        + (if IsSettlement(row) && OpenQuantity(Run(Accrual, contract, group, funding, init).open) > 0.0
           then row.change else 0.0)
  }

  /** Under Accrual a close's fills carry off what the matches carry of the
      lots' funding per unit. */
  lemma {:induction false} CloseFundingCarried(contract: string, group: seq<Record>, funding: seq<Record>, close: Record,
                                               ms: seq<Match<OpenInfo>>)
    ensures SumBy(CloseFills(Accrual, contract, group, funding, close, ms), FillFunding) == CarriedTotal(ms, PerUnit)
    decreases |ms|
  {
    if ms != [] {
      var fs, tail := CloseFills(Accrual, contract, group, funding, close, ms), CloseFills(Accrual, contract, group, funding, close, ms[1..]);
      forall k | 0 <= k < |tail| ensures fs[1..][k] == tail[k] {
        assert ms[1..][k] == ms[k + 1];
      }
      assert fs == [fs[0]] + tail;
      SumByConcat([fs[0]], tail, FillFunding);
      assert [fs[0]][..0] == [];
      CloseFundingCarried(contract, group, funding, close, ms[1..]);
    }
  }

  /** One row under Accrual: the funding in the fills plus the funding held
      by the open lots grows by the settlement when a positive quantity is
      open, and is unchanged otherwise. */
  lemma StepConserves(contract: string, group: seq<Record>, funding: seq<Record>, st: GroupState, row: Record)
    ensures var next := Step(Accrual, contract, group, funding, st, row);
      SumBy(next.fills, FillFunding) + WeightedTotal(next.open, PerUnit)
        == SumBy(st.fills, FillFunding) + WeightedTotal(st.open, PerUnit)
           + (if IsSettlement(row) && OpenQuantity(st.open) > 0.0 then row.change else 0.0)
  {
    if IsSettlement(row) {
      AccrueShares(st.open, row.change);
    } else if IsOpen(row) {
      WeightedTotalConcat(st.open, [OpenLot(row)], PerUnit);
      assert [OpenLot(row)][1..] == [];
    } else if IsClose(row) {
      var o := Consume(st.open, row.quantity);
      SumByConcat(st.fills, CloseFills(Accrual, contract, group, funding, row, o.matches), FillFunding);
      CloseFundingCarried(contract, group, funding, row, o.matches);
      ConsumeCarries(st.open, row.quantity, PerUnit);
    }
  }

  /** Funding is conserved under Accrual: what the fills carry plus what the
      still open lots hold is exactly the funding settled while a position
      was open. */
  lemma {:induction false} FundingConserved(contract: string, group: seq<Record>, funding: seq<Record>, rows: seq<Record>)
    ensures var st := Run(Accrual, contract, group, funding, rows);
      SumBy(st.fills, FillFunding) + WeightedTotal(st.open, PerUnit) == Distributed(contract, group, funding, rows)
    decreases |rows|
  {
    if rows != [] {
      var init, row := rows[..|rows| - 1], rows[|rows| - 1];
      FundingConserved(contract, group, funding, init);
      StepConserves(contract, group, funding, Run(Accrual, contract, group, funding, init), row);
    }
  }

  /** Once the position is flat, its fills carry exactly the funding settled
      while it was open. */
  lemma FlatPositionCarriesFunding(contract: string, group: seq<Record>, funding: seq<Record>, rows: seq<Record>)
    requires Run(Accrual, contract, group, funding, rows).open == []
    ensures SumBy(Run(Accrual, contract, group, funding, rows).fills, FillFunding) == Distributed(contract, group, funding, rows)
  {
    FundingConserved(contract, group, funding, rows);
  }

  // -----------------------------------------------------------------------
  // Invariants of a group's run

  /** A settlement under Accrual only accrues; an OPEN only adds a lot at
      the back; a CLOSE only appends fills; other rows change nothing. */
  lemma StepShape(rule: FundingRule, contract: string, group: seq<Record>, funding: seq<Record>, st: GroupState, row: Record)
    ensures var next := Step(rule, contract, group, funding, st, row);
      && (Accrues(rule, row) ==> next == GroupState(st.fills, Accrue(st.open, row.change)))
      && (!Accrues(rule, row) && IsOpen(row) ==>
            next == GroupState(st.fills, st.open + [Lot(row.quantity, OpenInfo(row.feePaid, row.time, 0.0))]))
      && (!Accrues(rule, row) && !IsOpen(row) && !IsClose(row) ==> next == st)
  {
  }

  ghost predicate OpenedBy(open: seq<Lot<OpenInfo>>, t: int)
  {
    forall k :: 0 <= k < |open| ==> open[k].info.time <= t
  }

  ghost predicate NonNegativeHolding(fills: seq<Fill>)
  {
    forall k :: 0 <= k < |fills| ==> fills[k].holding >= 0 && fills[k].holding == fills[k].closeTime - fills[k].openTime
  }

  lemma NonNegativeHoldingConcat(a: seq<Fill>, b: seq<Fill>)
    requires NonNegativeHolding(a) && NonNegativeHolding(b)
    ensures NonNegativeHolding(a + b)
  {
    forall k | 0 <= k < |a + b|
      ensures (a + b)[k].holding >= 0 && (a + b)[k].holding == (a + b)[k].closeTime - (a + b)[k].openTime
    {
      if k >= |a| {
        assert (a + b)[k] == b[k - |a|];
      } else {
        assert (a + b)[k] == a[k];
      }
    }
  }

  /** A close at time t after lots all opened by t records fills held a
      non-negative time and leaves lots all opened by t. */
  lemma CloseKeepsHolding(rule: FundingRule, contract: string, group: seq<Record>, funding: seq<Record>, st: GroupState, row: Record)
    requires !Accrues(rule, row) && !IsOpen(row) && IsClose(row)
    requires OpenedBy(st.open, row.time) && NonNegativeHolding(st.fills)
    ensures OpenedBy(Step(rule, contract, group, funding, st, row).open, row.time)
    ensures NonNegativeHolding(Step(rule, contract, group, funding, st, row).fills)
  {
    var o := Consume(st.open, row.quantity);
    ConsumeIsFifo(st.open, row.quantity);
    ConsumeRest(st.open, row.quantity);
    var added := CloseFills(rule, contract, group, funding, row, o.matches);
    var next := st.fills + added;
    forall k | 0 <= k < |next|
      ensures next[k].holding >= 0 && next[k].holding == next[k].closeTime - next[k].openTime
    {
      if k >= |st.fills| {
        assert next[k] == added[k - |st.fills|];
        assert o.matches[k - |st.fills|].info == st.open[k - |st.fills|].info;
      } else {
        assert next[k] == st.fills[k];
      }
    }
    var n := |o.matches|;
    forall k | 0 <= k < |o.rest| ensures o.rest[k].info.time <= row.time {
      if o.rest == st.open[n..] {
        assert o.rest[k] == st.open[n + k];
      } else if k == 0 {
        assert o.rest[0].info == st.open[n - 1].info;
      } else {
        assert o.rest[k] == st.open[n + k - 1];
      }
    }
  }

  /** If the rows are in time order, every open lot was opened no later than
      the last row, and every fill has a non-negative holding period equal to
      its close time minus its open time. */
  lemma {:induction false} RunHoldingNonNegative(rule: FundingRule, contract: string, group: seq<Record>, funding: seq<Record>,
                                                 rows: seq<Record>)
    requires SortedBy(rows, RecordTime)
    ensures rows != [] ==> OpenedBy(Run(rule, contract, group, funding, rows).open, rows[|rows| - 1].time)
    ensures NonNegativeHolding(Run(rule, contract, group, funding, rows).fills)
    decreases |rows|
  {
    if rows != [] {
      var init, row := rows[..|rows| - 1], rows[|rows| - 1];
      assert SortedBy(init, RecordTime);
      RunHoldingNonNegative(rule, contract, group, funding, init);
      var st := Run(rule, contract, group, funding, init);
      assert OpenedBy(st.open, row.time) by {
        if init != [] {
          assert init[|init| - 1] == rows[|rows| - 2];
        }
      }
      assert Run(rule, contract, group, funding, rows) == Step(rule, contract, group, funding, st, row);
      if Accrues(rule, row) {
        var next := Accrue(st.open, row.change);
        assert forall k :: 0 <= k < |next| ==> next[k].info.time == st.open[k].info.time;
      } else if !IsOpen(row) && IsClose(row) {
        CloseKeepsHolding(rule, contract, group, funding, st, row);
      } else if IsOpen(row) {
        var next := st.open + [OpenLot(row)];
        forall k | 0 <= k < |next| ensures next[k].info.time <= row.time {
          if k < |st.open| {
            assert next[k] == st.open[k];
          }
        }
      }
    }
  }

  /** A worked position: OPEN 10 at t=0 with fee -0.5, a funding settlement
      of -4 at t=5, and CLOSE 10 at t=10 with cash flow 50 and fee -1. The
      single fill realises 50 - 0.5 - 1 - 4 = 44.5, with funding -4 and trade
      fees -1.5, held 10 seconds. */
  lemma FundedPosition()
    ensures var open := Record(0, Some("BTCUSDT"), Some("TRADE"), Some("OPEN"), 10.0, -0.5, 0.0, 0.0);
      var settle := Record(5, Some("BTCUSDT"), Some("SETTLEMENT"), None, 0.0, 0.0, 0.0, -4.0);
      var close := Record(10, Some("BTCUSDT"), Some("TRADE"), Some("CLOSE"), 10.0, -1.0, 50.0, 0.0);
      var group := [open, close];
      Run(WindowShare, "BTCUSDT", group, [settle], group).fills == [Fill("BTCUSDT", 44.5, 10, 0, 10, -4.0, -1.5, 10.0)]
  {
    var open := Record(0, Some("BTCUSDT"), Some("TRADE"), Some("OPEN"), 10.0, -0.5, 0.0, 0.0);
    var settle := Record(5, Some("BTCUSDT"), Some("SETTLEMENT"), None, 0.0, 0.0, 0.0, -4.0);
    var close := Record(10, Some("BTCUSDT"), Some("TRADE"), Some("CLOSE"), 10.0, -1.0, 50.0, 0.0);
    var group := [open, close];
    var lot := Lot(10.0, OpenInfo(-0.5, 0, 0.0));
    assert group[..1][..0] == [];
    assert Run(WindowShare, "BTCUSDT", group, [settle], group[..1]) == GroupState([], [lot]);
    assert group[..1] == group[..|group| - 1];
    var m := Match(OpenInfo(-0.5, 0, 0.0), 10.0, 10.0);
    assert Consume([lot], 10.0) == Outcome([m], []);
    assert [settle][..0] == [];
    assert FundingSum([settle], "BTCUSDT", 0, 10) == -4.0;
    assert group[..0] == [] && group[..1] == [open];
    assert OpenQuantityIn(group[..1], 0, 10) == 10.0;
    assert OpenQuantityIn(group, 0, 10) == 10.0;
    assert CloseFills(WindowShare, "BTCUSDT", group, [settle], close, [m]) == [Fill("BTCUSDT", 44.5, 10, 0, 10, -4.0, -1.5, 10.0)];
  }

  // -----------------------------------------------------------------------
  // Worked ledgers

  /** A BTCUSDT row without fee or cash flow. */
  function LedgerRow(time: int, kind: string, action: Option<string>, quantity: real, change: real): Record
  {
    Record(time, Some("BTCUSDT"), Some(kind), action, quantity, 0.0, 0.0, change)
  }

  lemma RunSnoc(rule: FundingRule, contract: string, group: seq<Record>, funding: seq<Record>, rows: seq<Record>, row: Record)
    ensures Run(rule, contract, group, funding, rows + [row])
      == Step(rule, contract, group, funding, Run(rule, contract, group, funding, rows), row)
  {
    assert (rows + [row])[..|rows|] == rows;
  }

  /** A CLOSE whose consumption of the open lots is known. */
  lemma CloseStep(rule: FundingRule, contract: string, group: seq<Record>, funding: seq<Record>, st: GroupState,
                  close: Record, ms: seq<Match<OpenInfo>>, rest: seq<Lot<OpenInfo>>)
    requires !Accrues(rule, close) && IsClose(close)
    requires Consume(st.open, close.quantity) == Outcome(ms, rest)
    ensures Step(rule, contract, group, funding, st, close)
      == GroupState(st.fills + CloseFills(rule, contract, group, funding, close, ms), rest)
  {
  }

  /** On the code's window share, a partial close followed by a settlement
      loses funding: OPEN q at t0, CLOSE a at t1, a settlement F at t2 and
      CLOSE q - a at t3. The first close's window (t0, t1] holds no funding;
      the second's (t0, t3] holds F, of which it takes (q - a) / q, the
      share of the whole quantity opened in the window. F x a / q reaches no
      fill although only the q - a units closed at t3 were open through the
      settlement (OPEN 10, CLOSE 4, -6, CLOSE 6 gives 0 and -3.6). */
  lemma PartialCloseMisses(q: real, a: real, f: real, t0: int, t1: int, t2: int, t3: int)
    requires 0.0 < a && q - a > EPSILON && t0 < t1 < t2 <= t3
    ensures var group := [LedgerRow(t0, "TRADE", Some("OPEN"), q, 0.0), LedgerRow(t1, "TRADE", Some("CLOSE"), a, 0.0),
                          LedgerRow(t3, "TRADE", Some("CLOSE"), q - a, 0.0)];
      var fills := Run(WindowShare, "BTCUSDT", group, [LedgerRow(t2, "SETTLEMENT", None, 0.0, f)], group).fills;
      |fills| == 2 && fills[0].funding == 0.0 && fills[1].funding == Portion(f, q - a, q)
  {
    PartialCloseWindowFunding(q, a, f, t0, t1, t2, t3);
    NoPortionOfNothing(a, q);
  }

  lemma PartialCloseWindowFunding(q: real, a: real, f: real, t0: int, t1: int, t2: int, t3: int)
    requires 0.0 < a && q - a > EPSILON && t0 < t1 < t2 <= t3
    ensures var group := [LedgerRow(t0, "TRADE", Some("OPEN"), q, 0.0), LedgerRow(t1, "TRADE", Some("CLOSE"), a, 0.0),
                          LedgerRow(t3, "TRADE", Some("CLOSE"), q - a, 0.0)];
      var fills := Run(WindowShare, "BTCUSDT", group, [LedgerRow(t2, "SETTLEMENT", None, 0.0, f)], group).fills;
      |fills| == 2 && fills[0].funding == Portion(0.0, a, q) && fills[1].funding == Portion(f, q - a, q)
  {
    var c1, c2 := LedgerRow(t1, "TRADE", Some("CLOSE"), a, 0.0), LedgerRow(t3, "TRADE", Some("CLOSE"), q - a, 0.0);
    var group := [LedgerRow(t0, "TRADE", Some("OPEN"), q, 0.0), c1, c2];
    var funding := [LedgerRow(t2, "SETTLEMENT", None, 0.0, f)];
    var info := OpenInfo(0.0, t0, 0.0);
    PartialCloseRun(q, a, f, t0, t1, t2, t3);
    LedgerOneWindows(q, a, f, t0, t1, t2, t3);
    WindowFillFunding("BTCUSDT", group, funding, c1, info, q, a, q, 0.0);
    WindowFillFunding("BTCUSDT", group, funding, c2, info, q - a, q - a, q, f);
  }

  /** The walk of OPEN q, CLOSE a, CLOSE q - a on the window share: one fill
      per close, both against the one lot. */
  lemma PartialCloseRun(q: real, a: real, f: real, t0: int, t1: int, t2: int, t3: int)
    requires 0.0 < a && q - a > EPSILON
    ensures var o, c1 := LedgerRow(t0, "TRADE", Some("OPEN"), q, 0.0), LedgerRow(t1, "TRADE", Some("CLOSE"), a, 0.0);
      var c2 := LedgerRow(t3, "TRADE", Some("CLOSE"), q - a, 0.0);
      var group, funding, info := [o, c1, c2], [LedgerRow(t2, "SETTLEMENT", None, 0.0, f)], OpenInfo(0.0, t0, 0.0);
      Run(WindowShare, "BTCUSDT", group, funding, group).fills
        == [FillOf(WindowShare, "BTCUSDT", group, funding, c1, Match(info, q, a)),
            FillOf(WindowShare, "BTCUSDT", group, funding, c2, Match(info, q - a, q - a))]
  {
    var o, c1, c2 := LedgerRow(t0, "TRADE", Some("OPEN"), q, 0.0), LedgerRow(t1, "TRADE", Some("CLOSE"), a, 0.0),
                     LedgerRow(t3, "TRADE", Some("CLOSE"), q - a, 0.0);
    var funding := [LedgerRow(t2, "SETTLEMENT", None, 0.0, f)];
    var group := [o, c1, c2];
    var info := OpenInfo(0.0, t0, 0.0);
    RunSnoc(WindowShare, "BTCUSDT", group, funding, [], o);
    assert [] + [o] == [o];
    var st1 := Run(WindowShare, "BTCUSDT", group, funding, [o]);
    assert st1 == GroupState([], [Lot(q, info)]);
    ConsumePart(Lot(q, info), a);
    RunSnoc(WindowShare, "BTCUSDT", group, funding, [o], c1);
    assert [o] + [c1] == [o, c1];
    CloseStep(WindowShare, "BTCUSDT", group, funding, st1, c1, [Match(info, q, a)], [Lot(q - a, info)]);
    var st2 := Run(WindowShare, "BTCUSDT", group, funding, [o, c1]);
    ConsumeWhole(Lot(q - a, info));
    RunSnoc(WindowShare, "BTCUSDT", group, funding, [o, c1], c2);
    assert [o, c1] + [c2] == group;
    CloseStep(WindowShare, "BTCUSDT", group, funding, st2, c2, [Match(info, q - a, q - a)], []);
  }

  /** On the window share a fill takes its matched units' portion of the
      window's funding over the quantity opened in the window. */
  lemma WindowFillFunding(contract: string, group: seq<Record>, funding: seq<Record>, close: Record,
                          info: OpenInfo, available: real, matched: real, inPeriod: real, total: real)
    requires OpenQuantityIn(group, info.time, close.time) == inPeriod > 0.0
    requires FundingSum(funding, contract, info.time, close.time) == total
    ensures FillOf(WindowShare, contract, group, funding, close, Match(info, available, matched)).funding
      == Portion(total, matched, inPeriod)
  {
    var m := Match(info, available, matched);
    PortionScales(total, matched, inPeriod);
    SameOverPositive(FundingPart(contract, group, funding, close, m), Portion(total, matched, inPeriod), inPeriod, total * matched);
  }

  lemma SameOverPositive(r: real, p: real, x: real, y: real)
    requires x > 0.0 && r * x == y && p * x == y
    ensures r == p
  {
    assert (r - p) * x == 0.0;
  }

  lemma NoPortionOfNothing(q: real, total: real)
    ensures Portion(0.0, q, total) == 0.0
  {
    if total > 0.0 {
      assert 0.0 / total == 0.0;
    }
  }

  /** A portion put back over its total is the amount times its units. */
  lemma PortionScales(amount: real, q: real, total: real)
    requires total > 0.0
    ensures Portion(amount, q, total) * total == amount * q
  {
    assert amount / total * total == amount;
    assert amount / total * q * total == amount / total * total * q;
  }

  lemma LedgerOneWindows(q: real, a: real, f: real, t0: int, t1: int, t2: int, t3: int)
    requires 0.0 < a < q && t0 < t1 < t2 <= t3
    ensures var group := [LedgerRow(t0, "TRADE", Some("OPEN"), q, 0.0), LedgerRow(t1, "TRADE", Some("CLOSE"), a, 0.0),
                          LedgerRow(t3, "TRADE", Some("CLOSE"), q - a, 0.0)];
      var funding := [LedgerRow(t2, "SETTLEMENT", None, 0.0, f)];
      && OpenQuantityIn(group, t0, t1) == q && OpenQuantityIn(group, t0, t3) == q
      && FundingSum(funding, "BTCUSDT", t0, t1) == 0.0 && FundingSum(funding, "BTCUSDT", t0, t3) == f
  {
    var group := [LedgerRow(t0, "TRADE", Some("OPEN"), q, 0.0), LedgerRow(t1, "TRADE", Some("CLOSE"), a, 0.0),
                  LedgerRow(t3, "TRADE", Some("CLOSE"), q - a, 0.0)];
    var funding := [LedgerRow(t2, "SETTLEMENT", None, 0.0, f)];
    var g1, g2 := group[..1], group[..2];
    assert g2[..1] == g1 && g1[..0] == [] && funding[..0] == [];
    assert OpenQuantityIn(g1, t0, t1) == q;
    assert OpenQuantityIn(g1, t0, t3) == q;
    assert OpenQuantityIn(g2, t0, t1) == q;
    assert OpenQuantityIn(g2, t0, t3) == q;
  }

  /** On the code's window share, overlapping opens are charged twice: OPEN
      q1 at t0, OPEN q2 at t1, a settlement F at t2 and CLOSE q1 + q2 at t3.
      The first lot takes q1 / (q1 + q2) of the window's F, the second lot's
      window [t1, t3] holds only its own open and it takes all of F. The
      fills carry F and then some more (OPEN 10, OPEN 10, -4, CLOSE 20
      gives -2 and -4). */
  lemma OverlapOvercharges(q1: real, q2: real, f: real, t0: int, t1: int, t2: int, t3: int)
    requires 0.0 < q1 && 0.0 < q2 && t0 < t1 < t2 <= t3
    ensures var group := [LedgerRow(t0, "TRADE", Some("OPEN"), q1, 0.0), LedgerRow(t1, "TRADE", Some("OPEN"), q2, 0.0),
                          LedgerRow(t3, "TRADE", Some("CLOSE"), q1 + q2, 0.0)];
      var fills := Run(WindowShare, "BTCUSDT", group, [LedgerRow(t2, "SETTLEMENT", None, 0.0, f)], group).fills;
      |fills| == 2 && fills[0].funding * (q1 + q2) == f * q1 && fills[1].funding == f
  {
    var c := LedgerRow(t3, "TRADE", Some("CLOSE"), q1 + q2, 0.0);
    var group := [LedgerRow(t0, "TRADE", Some("OPEN"), q1, 0.0), LedgerRow(t1, "TRADE", Some("OPEN"), q2, 0.0), c];
    var funding := [LedgerRow(t2, "SETTLEMENT", None, 0.0, f)];
    var m1, m2 := Match(OpenInfo(0.0, t0, 0.0), q1, q1), Match(OpenInfo(0.0, t1, 0.0), q2, q2);
    OverlapWindowRun(q1, q2, f, t0, t1, t2, t3);
    LedgerTwoWindows(q1, q2, f, t0, t1, t2, t3);
    var r := FillOf(WindowShare, "BTCUSDT", group, funding, c, m2).funding;
    assert r * q2 == f * q2;
    assert (r - f) * q2 == 0.0;
  }

  lemma OverlapWindowRun(q1: real, q2: real, f: real, t0: int, t1: int, t2: int, t3: int)
    requires 0.0 < q1 && 0.0 < q2
    ensures var c := LedgerRow(t3, "TRADE", Some("CLOSE"), q1 + q2, 0.0);
      var group := [LedgerRow(t0, "TRADE", Some("OPEN"), q1, 0.0), LedgerRow(t1, "TRADE", Some("OPEN"), q2, 0.0), c];
      var funding := [LedgerRow(t2, "SETTLEMENT", None, 0.0, f)];
      Run(WindowShare, "BTCUSDT", group, funding, group).fills
        == [FillOf(WindowShare, "BTCUSDT", group, funding, c, Match(OpenInfo(0.0, t0, 0.0), q1, q1)),
            FillOf(WindowShare, "BTCUSDT", group, funding, c, Match(OpenInfo(0.0, t1, 0.0), q2, q2))]
  {
    var o1, o2, c := LedgerRow(t0, "TRADE", Some("OPEN"), q1, 0.0), LedgerRow(t1, "TRADE", Some("OPEN"), q2, 0.0),
                     LedgerRow(t3, "TRADE", Some("CLOSE"), q1 + q2, 0.0);
    var funding := [LedgerRow(t2, "SETTLEMENT", None, 0.0, f)];
    var group := [o1, o2, c];
    var a, b := OpenInfo(0.0, t0, 0.0), OpenInfo(0.0, t1, 0.0);
    RunSnoc(WindowShare, "BTCUSDT", group, funding, [], o1);
    assert [] + [o1] == [o1];
    RunSnoc(WindowShare, "BTCUSDT", group, funding, [o1], o2);
    assert [o1] + [o2] == [o1, o2];
    var st2 := Run(WindowShare, "BTCUSDT", group, funding, [o1, o2]);
    assert st2 == GroupState([], [Lot(q1, a), Lot(q2, b)]);
    ConsumeBoth(Lot(q1, a), Lot(q2, b));
    RunSnoc(WindowShare, "BTCUSDT", group, funding, [o1, o2], c);
    assert [o1, o2] + [c] == group;
    CloseStep(WindowShare, "BTCUSDT", group, funding, st2, c, [Match(a, q1, q1), Match(b, q2, q2)], []);
  }

  lemma LedgerTwoWindows(q1: real, q2: real, f: real, t0: int, t1: int, t2: int, t3: int)
    requires t0 < t1 < t2 <= t3
    ensures var group := [LedgerRow(t0, "TRADE", Some("OPEN"), q1, 0.0), LedgerRow(t1, "TRADE", Some("OPEN"), q2, 0.0),
                          LedgerRow(t3, "TRADE", Some("CLOSE"), q1 + q2, 0.0)];
      var funding := [LedgerRow(t2, "SETTLEMENT", None, 0.0, f)];
      && OpenQuantityIn(group, t0, t3) == q1 + q2 && OpenQuantityIn(group, t1, t3) == q2
      && FundingSum(funding, "BTCUSDT", t0, t3) == f && FundingSum(funding, "BTCUSDT", t1, t3) == f
  {
    var group := [LedgerRow(t0, "TRADE", Some("OPEN"), q1, 0.0), LedgerRow(t1, "TRADE", Some("OPEN"), q2, 0.0),
                  LedgerRow(t3, "TRADE", Some("CLOSE"), q1 + q2, 0.0)];
    var funding := [LedgerRow(t2, "SETTLEMENT", None, 0.0, f)];
    var g1, g2 := group[..1], group[..2];
    assert g2[..1] == g1 && g1[..0] == [] && funding[..0] == [];
    assert OpenQuantityIn(g1, t0, t3) == q1;
    assert OpenQuantityIn(g1, t1, t3) == 0.0;
    assert OpenQuantityIn(g2, t0, t3) == q1 + q2;
    assert OpenQuantityIn(g2, t1, t3) == q2;
  }

  /** The ledger of PartialCloseMisses under Accrual, the settlement merged
      into the walk: the fills carry 0 and F, the settlement falling on the
      q - a units open at t2. */
  lemma PartialCloseAccrues(q: real, a: real, f: real, t0: int, t1: int, t2: int, t3: int)
    requires 0.0 < a && q - a > EPSILON && t0 < t1 < t2 <= t3
    ensures var o, c1 := LedgerRow(t0, "TRADE", Some("OPEN"), q, 0.0), LedgerRow(t1, "TRADE", Some("CLOSE"), a, 0.0);
      var s, c2 := LedgerRow(t2, "SETTLEMENT", None, 0.0, f), LedgerRow(t3, "TRADE", Some("CLOSE"), q - a, 0.0);
      var fills := Run(Accrual, "BTCUSDT", [o, c1, c2], [s], [o, c1, s, c2]).fills;
      |fills| == 2 && fills[0].funding == 0.0 && fills[1].funding == f
  {
    var c1, c2 := LedgerRow(t1, "TRADE", Some("CLOSE"), a, 0.0), LedgerRow(t3, "TRADE", Some("CLOSE"), q - a, 0.0);
    var group := [LedgerRow(t0, "TRADE", Some("OPEN"), q, 0.0), c1, c2];
    var s := LedgerRow(t2, "SETTLEMENT", None, 0.0, f);
    PartialCloseAccrualRun(q, a, f, t0, t1, t2, t3);
    UnaccruedFillFunding("BTCUSDT", group, [s], c1, 0.0, t0, q, a);
    AccrualFillFunding("BTCUSDT", group, [s], c2, 0.0, t0, f, q - a, q - a);
    PortionOfAll(f, q - a);
  }

  lemma PartialCloseAccrualRun(q: real, a: real, f: real, t0: int, t1: int, t2: int, t3: int)
    requires 0.0 < a && q - a > EPSILON
    ensures var o, c1 := LedgerRow(t0, "TRADE", Some("OPEN"), q, 0.0), LedgerRow(t1, "TRADE", Some("CLOSE"), a, 0.0);
      var s, c2 := LedgerRow(t2, "SETTLEMENT", None, 0.0, f), LedgerRow(t3, "TRADE", Some("CLOSE"), q - a, 0.0);
      var group := [o, c1, c2];
      Run(Accrual, "BTCUSDT", group, [s], [o, c1, s, c2]).fills
        == [FillOf(Accrual, "BTCUSDT", group, [s], c1, Match(OpenInfo(0.0, t0, 0.0), q, a)),
            FillOf(Accrual, "BTCUSDT", group, [s], c2, Match(OpenInfo(0.0, t0, f / (q - a)), q - a, q - a))]
  {
    var o, c1 := LedgerRow(t0, "TRADE", Some("OPEN"), q, 0.0), LedgerRow(t1, "TRADE", Some("CLOSE"), a, 0.0);
    var s, c2 := LedgerRow(t2, "SETTLEMENT", None, 0.0, f), LedgerRow(t3, "TRADE", Some("CLOSE"), q - a, 0.0);
    var group := [o, c1, c2];
    var info := OpenInfo(0.0, t0, 0.0);
    RunSnoc(Accrual, "BTCUSDT", group, [s], [], o);
    assert [] + [o] == [o];
    var st1 := Run(Accrual, "BTCUSDT", group, [s], [o]);
    assert st1 == GroupState([], [Lot(q, info)]);
    ConsumePart(Lot(q, info), a);
    RunSnoc(Accrual, "BTCUSDT", group, [s], [o], c1);
    assert [o] + [c1] == [o, c1];
    CloseStep(Accrual, "BTCUSDT", group, [s], st1, c1, [Match(info, q, a)], [Lot(q - a, info)]);
    var st2 := Run(Accrual, "BTCUSDT", group, [s], [o, c1]);
    var accrued := OpenInfo(0.0, t0, f / (q - a));
    RunSnoc(Accrual, "BTCUSDT", group, [s], [o, c1], s);
    assert [o, c1] + [s] == [o, c1, s];
    assert [Lot(q - a, info)][1..] == [];
    assert OpenQuantity([Lot(q - a, info)]) == q - a;
    assert Accrue([Lot(q - a, info)], f) == [Lot(q - a, accrued)];
    var st3 := Run(Accrual, "BTCUSDT", group, [s], [o, c1, s]);
    assert st3 == GroupState(st2.fills, [Lot(q - a, accrued)]);
    ConsumeWhole(Lot(q - a, accrued));
    RunSnoc(Accrual, "BTCUSDT", group, [s], [o, c1, s], c2);
    assert [o, c1, s] + [c2] == [o, c1, s, c2];
    CloseStep(Accrual, "BTCUSDT", group, [s], st3, c2, [Match(accrued, q - a, q - a)], []);
  }

  /** Under Accrual a fill against a lot that accrued nothing carries no
      funding. */
  lemma UnaccruedFillFunding(contract: string, group: seq<Record>, funding: seq<Record>, close: Record,
                             fee: real, time: int, available: real, matched: real)
    ensures FillOf(Accrual, contract, group, funding, close, Match(OpenInfo(fee, time, 0.0), available, matched)).funding == 0.0
  {
  }

  lemma PortionOfAll(amount: real, total: real)
    requires total > 0.0
    ensures Portion(amount, total, total) == amount
  {
    assert amount / total * total == amount;
  }

  /** The ledger of OverlapOvercharges under Accrual: both lots were open
      across the settlement, so each fill takes its quantity's share of F
      and together they carry exactly F. */
  lemma OverlapAccrues(q1: real, q2: real, f: real, t0: int, t1: int, t2: int, t3: int)
    requires 0.0 < q1 && 0.0 < q2 && t0 < t1 < t2 <= t3
    ensures var o1, o2 := LedgerRow(t0, "TRADE", Some("OPEN"), q1, 0.0), LedgerRow(t1, "TRADE", Some("OPEN"), q2, 0.0);
      var s, c := LedgerRow(t2, "SETTLEMENT", None, 0.0, f), LedgerRow(t3, "TRADE", Some("CLOSE"), q1 + q2, 0.0);
      var fills := Run(Accrual, "BTCUSDT", [o1, o2, c], [s], [o1, o2, s, c]).fills;
      && |fills| == 2 && fills[0].funding == Portion(f, q1, q1 + q2) && fills[1].funding == Portion(f, q2, q1 + q2)
      && fills[0].funding + fills[1].funding == f
  {
    OverlapAccrualRun(q1, q2, f, t0, t1, t2, t3);
    ShareByQuantity(f, q1, q2);
  }

  /** Under Accrual a fill that empties a lot of q units, accrued f / total
      per unit, carries q's portion of f. */
  lemma AccrualFillFunding(contract: string, group: seq<Record>, funding: seq<Record>, close: Record,
                            fee: real, time: int, f: real, q: real, total: real)
    requires total > 0.0
    ensures FillOf(Accrual, contract, group, funding, close, Match(OpenInfo(fee, time, f / total), q, q)).funding
      == Portion(f, q, total)
  {
  }

  /** f spread over q1 + q2 units: each part is in proportion to its units
      and the two parts make f. */
  lemma ShareByQuantity(f: real, q1: real, q2: real)
    requires 0.0 < q1 && 0.0 < q2
    ensures Portion(f, q1, q1 + q2) * (q1 + q2) == f * q1 && Portion(f, q2, q1 + q2) * (q1 + q2) == f * q2
    ensures Portion(f, q1, q1 + q2) + Portion(f, q2, q1 + q2) == f
  {
    var rate := f / (q1 + q2);
    assert rate * (q1 + q2) == f;
    assert rate * q1 * (q1 + q2) == rate * (q1 + q2) * q1;
    assert rate * q2 * (q1 + q2) == rate * (q1 + q2) * q2;
  }

  lemma OverlapAccrualRun(q1: real, q2: real, f: real, t0: int, t1: int, t2: int, t3: int)
    requires 0.0 < q1 && 0.0 < q2
    ensures var o1, o2 := LedgerRow(t0, "TRADE", Some("OPEN"), q1, 0.0), LedgerRow(t1, "TRADE", Some("OPEN"), q2, 0.0);
      var s, c := LedgerRow(t2, "SETTLEMENT", None, 0.0, f), LedgerRow(t3, "TRADE", Some("CLOSE"), q1 + q2, 0.0);
      var group := [o1, o2, c];
      var fills := Run(Accrual, "BTCUSDT", group, [s], [o1, o2, s, c]).fills;
      |fills| == 2 && fills[0].funding == Portion(f, q1, q1 + q2) && fills[1].funding == Portion(f, q2, q1 + q2)
  {
    var c := LedgerRow(t3, "TRADE", Some("CLOSE"), q1 + q2, 0.0);
    var group := [LedgerRow(t0, "TRADE", Some("OPEN"), q1, 0.0), LedgerRow(t1, "TRADE", Some("OPEN"), q2, 0.0), c];
    var s := LedgerRow(t2, "SETTLEMENT", None, 0.0, f);
    OverlapAccrualFills(q1, q2, f, t0, t1, t2, t3);
    AccrualFillFunding("BTCUSDT", group, [s], c, 0.0, t0, f, q1, q1 + q2);
    AccrualFillFunding("BTCUSDT", group, [s], c, 0.0, t1, f, q2, q1 + q2);
  }

  lemma OverlapAccrualFills(q1: real, q2: real, f: real, t0: int, t1: int, t2: int, t3: int)
    requires 0.0 < q1 && 0.0 < q2
    ensures var o1, o2 := LedgerRow(t0, "TRADE", Some("OPEN"), q1, 0.0), LedgerRow(t1, "TRADE", Some("OPEN"), q2, 0.0);
      var s, c := LedgerRow(t2, "SETTLEMENT", None, 0.0, f), LedgerRow(t3, "TRADE", Some("CLOSE"), q1 + q2, 0.0);
      var rate := f / (q1 + q2);
      var group := [o1, o2, c];
      Run(Accrual, "BTCUSDT", group, [s], [o1, o2, s, c]).fills
        == [FillOf(Accrual, "BTCUSDT", group, [s], c, Match(OpenInfo(0.0, t0, rate), q1, q1)),
            FillOf(Accrual, "BTCUSDT", group, [s], c, Match(OpenInfo(0.0, t1, rate), q2, q2))]
  {
    var o1, o2 := LedgerRow(t0, "TRADE", Some("OPEN"), q1, 0.0), LedgerRow(t1, "TRADE", Some("OPEN"), q2, 0.0);
    var s, c := LedgerRow(t2, "SETTLEMENT", None, 0.0, f), LedgerRow(t3, "TRADE", Some("CLOSE"), q1 + q2, 0.0);
    var group := [o1, o2, c];
    var rate := f / (q1 + q2);
    var a2, b2 := OpenInfo(0.0, t0, rate), OpenInfo(0.0, t1, rate);
    var st3 := GroupState([], [Lot(q1, a2), Lot(q2, b2)]);
    OverlapAccrualOpen(q1, q2, f, t0, t1, t2, t3);
    ConsumeBoth(Lot(q1, a2), Lot(q2, b2));
    RunSnoc(Accrual, "BTCUSDT", group, [s], [o1, o2, s], c);
    assert [o1, o2, s] + [c] == [o1, o2, s, c];
    var m1, m2 := Match(a2, q1, q1), Match(b2, q2, q2);
    CloseStep(Accrual, "BTCUSDT", group, [s], st3, c, [m1, m2], []);
  }

  lemma OverlapAccrualOpen(q1: real, q2: real, f: real, t0: int, t1: int, t2: int, t3: int)
    requires 0.0 < q1 && 0.0 < q2
    ensures var o1, o2 := LedgerRow(t0, "TRADE", Some("OPEN"), q1, 0.0), LedgerRow(t1, "TRADE", Some("OPEN"), q2, 0.0);
      var s, c := LedgerRow(t2, "SETTLEMENT", None, 0.0, f), LedgerRow(t3, "TRADE", Some("CLOSE"), q1 + q2, 0.0);
      var rate := f / (q1 + q2);
      Run(Accrual, "BTCUSDT", [o1, o2, c], [s], [o1, o2, s])
        == GroupState([], [Lot(q1, OpenInfo(0.0, t0, rate)), Lot(q2, OpenInfo(0.0, t1, rate))])
  {
    var o1, o2 := LedgerRow(t0, "TRADE", Some("OPEN"), q1, 0.0), LedgerRow(t1, "TRADE", Some("OPEN"), q2, 0.0);
    var s, c := LedgerRow(t2, "SETTLEMENT", None, 0.0, f), LedgerRow(t3, "TRADE", Some("CLOSE"), q1 + q2, 0.0);
    var group := [o1, o2, c];
    var a, b := OpenInfo(0.0, t0, 0.0), OpenInfo(0.0, t1, 0.0);
    RunSnoc(Accrual, "BTCUSDT", group, [s], [], o1);
    assert [] + [o1] == [o1];
    RunSnoc(Accrual, "BTCUSDT", group, [s], [o1], o2);
    assert [o1] + [o2] == [o1, o2];
    assert Run(Accrual, "BTCUSDT", group, [s], [o1, o2]) == GroupState([], [Lot(q1, a), Lot(q2, b)]);
    RunSnoc(Accrual, "BTCUSDT", group, [s], [o1, o2], s);
    assert [o1, o2] + [s] == [o1, o2, s];
    AccrueTwo(Lot(q1, a), Lot(q2, b), f);
  }

  /** A settlement over two open lots. */
  lemma AccrueTwo(a: Lot<OpenInfo>, b: Lot<OpenInfo>, amount: real)
    requires a.quantity + b.quantity > 0.0
    ensures var rate := amount / (a.quantity + b.quantity);
      Accrue([a, b], amount)
        == [a.(info := a.info.(fundingPerUnit := a.info.fundingPerUnit + rate)),
            b.(info := b.info.(fundingPerUnit := b.info.fundingPerUnit + rate))]
  {
    assert [a, b][1..] == [b] && [b][1..] == [];
    assert OpenQuantity([b]) == b.quantity;
    assert OpenQuantity([a, b]) == a.quantity + b.quantity;
  }
}
