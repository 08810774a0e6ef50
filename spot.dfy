/** The spot engine: FIFO matching of coin buys and sells from a spot ledger.

    The ledger rows are sorted by time and their Amount cells coerced to
    numbers. Rows of type "trade" are the trades, rows of type "tradingFee"
    the fees. A trade with a positive amount is a buy leg, one with a negative
    amount a sell leg (its amount made absolute). The legs are processed in
    time order, per coin. The price of a leg comes from the first USDT trade
    at the same timestamp: a buy enqueues a lot at |USDT| / quantity, and a
    sell at (signed USDT) / quantity is matched against the coin's lots
    first-in-first-out. Each match realises (sell price - lot price) x matched
    quantity. Fees are netted per coin, made absolute and summed. */
module SpotEngine {
  import opened Common
  import opened Fifo

  /** One ledger row: timestamp in seconds, coin, row type, Amount cell. */
  datatype SpotRow = SpotRow(time: int, coin: string, kind: Option<string>, amount: Num)

  /** A row after numeric coercion. */
  datatype Entry = Entry(time: int, coin: string, kind: Option<string>, amount: real)

  /** A trade leg: the absolute amount of coin traded at time, and whether the
      row's own amount was positive. */
  datatype Leg = Leg(time: int, coin: string, amount: real, positive: bool)

  /** What a buy lot remembers: its unit price in USDT and its time. */
  datatype BuyInfo = BuyInfo(price: real, time: int)

  /** One realised match of a sell against a buy lot. */
  datatype SpotFill = SpotFill(coin: string, pnl: real, quantity: real, buyPrice: real,
                               sellPrice: real, buyTime: int, sellTime: int)

  /** The matching state: one FIFO queue of lots per coin, and the fills so far. */
  datatype SpotState = SpotState(inventory: map<string, seq<Lot<BuyInfo>>>, fills: seq<SpotFill>)

  /** How the buy/sell branch is decided: as the code reads (the amount after
      the sell legs were made absolute) or as intended (the row's own sign). */
  datatype Reading = AsWritten | Corrected

  /** The analysis result. `labels` are timestamps: the earliest buy of any
      fill, then each fill's sell time; `data` starts at 0 and follows the
      running sum of realised pnl. The trade list is the fills in order (the
      k-th has id "S-k"). */
  datatype SpotReport = SpotReport(totalPnl: real, tradeCount: nat, totalFees: real,
                                   labels: seq<int>, data: seq<real>, trades: seq<SpotFill>)

  datatype SpotError = NoRealizedPnl

  const QUOTE: string := "USDT"

  function EntryOf(r: SpotRow): Entry
  {
    Entry(r.time, r.coin, r.kind, Coerce(r.amount))
  }

  function EntryTime(e: Entry): int { e.time }

  function EntryCoin(e: Entry): string { e.coin }

  function EntryAmount(e: Entry): real { e.amount }

  function LegTime(l: Leg): int { l.time }

  function FillPnl(f: SpotFill): real { f.pnl }

  predicate IsTrade(e: Entry) { e.kind == Some("trade") }

  predicate IsFee(e: Entry) { e.kind == Some("tradingFee") }

  // -----------------------------------------------------------------------
  // Preparing the ledger

  function Coerced(rows: seq<SpotRow>): (es: seq<Entry>)
    ensures |es| == |rows|
    ensures forall i :: 0 <= i < |rows| ==> es[i] == EntryOf(rows[i])
  {
    seq(|rows|, i requires 0 <= i < |rows| => EntryOf(rows[i]))
  }

  /** The coerced rows in time order, keeping every row. */
  function Entries(rows: seq<SpotRow>): (es: seq<Entry>)
    ensures SortedBy(es, EntryTime)
    ensures multiset(es) == multiset(Coerced(rows))
  {
    SortBySorted(Coerced(rows), EntryTime);
    SortByPermutes(Coerced(rows), EntryTime);
    SortBy(Coerced(rows), EntryTime)
  }

  /** The buy legs: trades with a positive amount, in order. */
  function BuyLegs(trades: seq<Entry>): (ls: seq<Leg>)
    ensures forall l :: l in ls ==> l.amount > 0.0 && l.positive
    decreases |trades|
  {
    if trades == [] then []
    else
      var e := trades[|trades| - 1];
      BuyLegs(trades[..|trades| - 1]) + (if e.amount > 0.0 then [Leg(e.time, e.coin, e.amount, true)] else [])
  }

  /** The sell legs: trades with a negative amount, made absolute, in order. */
  function SellLegs(trades: seq<Entry>): (ls: seq<Leg>)
    ensures forall l :: l in ls ==> l.amount > 0.0 && !l.positive
    decreases |trades|
  {
    if trades == [] then []
    else
      var e := trades[|trades| - 1];
      SellLegs(trades[..|trades| - 1]) + (if e.amount < 0.0 then [Leg(e.time, e.coin, -e.amount, false)] else [])
  }

  /** Buys followed by sells, sorted by time: each buy and each sell leg
      exactly as often as it occurs. Every leg has a positive amount. */
  function Legs(trades: seq<Entry>): (ls: seq<Leg>)
    ensures SortedBy(ls, LegTime)
    ensures multiset(ls) == multiset(BuyLegs(trades) + SellLegs(trades))
    ensures forall l :: l in ls <==> l in BuyLegs(trades) || l in SellLegs(trades)
    ensures forall i :: 0 <= i < |ls| ==> ls[i].amount > 0.0
  {
    var all := BuyLegs(trades) + SellLegs(trades);
    SortedLegs(all);
    SortBy(all, LegTime)
  }

  /** Sorting positive legs by time gives the same positive legs in time
      order. */
  lemma SortedLegs(all: seq<Leg>)
    requires forall l :: l in all ==> l.amount > 0.0
    ensures var ls := SortBy(all, LegTime);
      && SortedBy(ls, LegTime) && multiset(ls) == multiset(all)
      && (forall l :: l in ls <==> l in all)
      && forall i :: 0 <= i < |ls| ==> ls[i].amount > 0.0
  {
    SortBySorted(all, LegTime);
    SortByPermutes(all, LegTime);
    SortByMembers(all, LegTime);
    var ls := SortBy(all, LegTime);
    assert forall i :: 0 <= i < |ls| ==> ls[i] in ls;
  }

  /** Every trade with a non-zero amount becomes exactly the leg its sign
      says: positive rows buy their amount, negative rows sell its absolute
      value. */
  lemma TradeBecomesLeg(trades: seq<Entry>, i: nat)
    requires i < |trades| && trades[i].amount != 0.0
    ensures Leg(trades[i].time, trades[i].coin, Abs(trades[i].amount), trades[i].amount > 0.0) in Legs(trades)
  {
    if trades[i].amount > 0.0 {
      BuyLegMember(trades, i);
    } else {
      SellLegMember(trades, i);
    }
  }

  lemma {:induction false} BuyLegMember(trades: seq<Entry>, i: nat)
    requires i < |trades| && trades[i].amount > 0.0
    ensures Leg(trades[i].time, trades[i].coin, trades[i].amount, true) in BuyLegs(trades)
    decreases |trades|
  {
    if i < |trades| - 1 {
      BuyLegMember(trades[..|trades| - 1], i);
    }
  }

  lemma {:induction false} SellLegMember(trades: seq<Entry>, i: nat)
    requires i < |trades| && trades[i].amount < 0.0
    ensures Leg(trades[i].time, trades[i].coin, -trades[i].amount, false) in SellLegs(trades)
    decreases |trades|
  {
    if i < |trades| - 1 {
      SellLegMember(trades[..|trades| - 1], i);
    }
  }

  predicate IsBuyRow(e: Entry) { e.amount > 0.0 }

  predicate IsSellRow(e: Entry) { e.amount < 0.0 }

  /** The buy legs are the positive trade rows, one leg per row in order,
      each of the row's amount. */
  lemma {:induction false} BuyLegsOfRows(trades: seq<Entry>)
    ensures |BuyLegs(trades)| == |Filter(trades, IsBuyRow)|
    ensures forall i :: 0 <= i < |BuyLegs(trades)| ==>
      var e := Filter(trades, IsBuyRow)[i]; BuyLegs(trades)[i] == Leg(e.time, e.coin, e.amount, true)
    decreases |trades|
  {
    if trades != [] {
      BuyLegsOfRows(trades[..|trades| - 1]);
    }
  }

  /** The sell legs are the negative trade rows, one leg per row in order,
      each of the row's negated amount. */
  lemma {:induction false} SellLegsOfRows(trades: seq<Entry>)
    ensures |SellLegs(trades)| == |Filter(trades, IsSellRow)|
    ensures forall i :: 0 <= i < |SellLegs(trades)| ==>
      var e := Filter(trades, IsSellRow)[i]; SellLegs(trades)[i] == Leg(e.time, e.coin, -e.amount, false)
    decreases |trades|
  {
    if trades != [] {
      SellLegsOfRows(trades[..|trades| - 1]);
    }
  }

  // -----------------------------------------------------------------------
  // Prices

  predicate QuoteAt(e: Entry, t: int) { e.time == t && e.coin == QUOTE }

  /** Index of the first USDT trade at time t from `from` on, or |trades|. */
  function FirstQuote(trades: seq<Entry>, t: int, from: nat): (k: nat)
    requires from <= |trades|
    ensures from <= k <= |trades|
    ensures k < |trades| ==> QuoteAt(trades[k], t)
    ensures forall j :: from <= j < k ==> !QuoteAt(trades[j], t)
    decreases |trades| - from
  {
    if from == |trades| || QuoteAt(trades[from], t) then from else FirstQuote(trades, t, from + 1)
  }

  /** The signed USDT amount of the first USDT trade at time t, if any. */
  function QuoteAmount(trades: seq<Entry>, t: int): Option<real>
  {
    var k := FirstQuote(trades, t, 0);
    if k < |trades| then Some(trades[k].amount) else None
  }

  /** The quote exists exactly when some USDT trade has that time, and it is
      the amount of the first one. */
  lemma QuoteIsFirst(trades: seq<Entry>, t: int)
    ensures QuoteAmount(trades, t).None? <==> forall j :: 0 <= j < |trades| ==> !QuoteAt(trades[j], t)
    ensures QuoteAmount(trades, t).Some? ==>
      exists k :: && 0 <= k < |trades| && QuoteAt(trades[k], t)
                  && QuoteAmount(trades, t).value == trades[k].amount
                  && forall j :: 0 <= j < k ==> !QuoteAt(trades[j], t)
  {
    var k := FirstQuote(trades, t, 0);
    if k < |trades| {
      assert QuoteAt(trades[k], t);
    }
  }

  // -----------------------------------------------------------------------
  // Matching

  /** The coin's lot queue; a coin never seen has an empty one. */
  function Lots(inventory: map<string, seq<Lot<BuyInfo>>>, coin: string): seq<Lot<BuyInfo>>
  {
    if coin in inventory then inventory[coin] else []
  }

  /** What selling `quantity` bought at `buyPrice` for `sellPrice` realises. */
  function Profit(sellPrice: real, buyPrice: real, quantity: real): real
  {
    (sellPrice - buyPrice) * quantity
  }

  /** The fills of one sell leg at `price`, one per match. */
  function SaleFills(leg: Leg, price: real, ms: seq<Match<BuyInfo>>): (fs: seq<SpotFill>)
    ensures |fs| == |ms|
  {
    seq(|ms|, k requires 0 <= k < |ms| =>
      SpotFill(leg.coin, Profit(price, ms[k].info.price, ms[k].matched), ms[k].matched,
               ms[k].info.price, price, ms[k].info.time, leg.time))
  }

  /** The branch test. As written, a sell leg's amount is already absolute,
      so the test is positive for every leg. */
  function IsBuy(leg: Leg, reading: Reading): bool
  {
    match reading
    case AsWritten => leg.amount > 0.0
    case Corrected => leg.positive
  }

  /** One leg: without a USDT trade at its time nothing happens; a buy
      enqueues a lot and realises nothing; a sell consumes the coin's lots
      FIFO. Fills are only appended, and no other coin's queue changes. */
  function StepLeg(trades: seq<Entry>, st: SpotState, leg: Leg, isBuy: bool): (r: SpotState)
    requires leg.amount > 0.0
    ensures QuoteAmount(trades, leg.time).None? ==> r == st
    ensures isBuy ==> r.fills == st.fills
    ensures |st.fills| <= |r.fills| && r.fills[..|st.fills|] == st.fills
    ensures forall c :: c != leg.coin ==> Lots(r.inventory, c) == Lots(st.inventory, c)
    ensures r.inventory.Keys <= st.inventory.Keys + {leg.coin}
  {
    var lots := Lots(st.inventory, leg.coin);
    match QuoteAmount(trades, leg.time)
    case None => st
    case Some(u) =>
      if isBuy then
        SpotState(st.inventory[leg.coin := lots + [Lot(leg.amount, BuyInfo(Abs(u) / leg.amount, leg.time))]], st.fills)
      else
        var price := u / leg.amount;
        var o := Consume(lots, leg.amount);
        SpotState(st.inventory[leg.coin := o.rest], st.fills + SaleFills(leg, price, o.matches))
  }

  /** The legs processed in order, from an empty inventory. */
  function RunLegs(trades: seq<Entry>, legs: seq<Leg>, reading: Reading): SpotState
    requires forall i :: 0 <= i < |legs| ==> legs[i].amount > 0.0
    decreases |legs|
  {
    if legs == [] then SpotState(map[], [])
    else
      var last := legs[|legs| - 1];
      StepLeg(trades, RunLegs(trades, legs[..|legs| - 1], reading), last, IsBuy(last, reading))
  }

  /** There is a queue only for coins some leg traded, and fills are only
      ever appended. */
  lemma {:induction false} RunLegsCoins(trades: seq<Entry>, legs: seq<Leg>, reading: Reading)
    requires forall i :: 0 <= i < |legs| ==> legs[i].amount > 0.0
    ensures forall c :: c in RunLegs(trades, legs, reading).inventory ==>
      exists i :: 0 <= i < |legs| && legs[i].coin == c
    decreases |legs|
  {
    if legs != [] {
      var init := legs[..|legs| - 1];
      RunLegsCoins(trades, init, reading);
      forall c | c in RunLegs(trades, legs, reading).inventory
        ensures exists i :: 0 <= i < |legs| && legs[i].coin == c
      {
        if c != legs[|legs| - 1].coin {
          assert c in RunLegs(trades, init, reading).inventory;
          var i :| 0 <= i < |init| && init[i].coin == c;
          assert legs[i] == init[i];
        }
      }
    }
  }

  /** The matching loop over the legs. */
  method ProcessLegs(trades: seq<Entry>, legs: seq<Leg>, reading: Reading)
    returns (inventory: map<string, seq<Lot<BuyInfo>>>, fills: seq<SpotFill>)
    requires forall i :: 0 <= i < |legs| ==> legs[i].amount > 0.0
    ensures SpotState(inventory, fills) == RunLegs(trades, legs, reading)
  {
    inventory := map[];
    fills := [];
    for i := 0 to |legs|
      invariant SpotState(inventory, fills) == RunLegs(trades, legs[..i], reading)
    {
      var leg := legs[i];
      assert legs[..i + 1][..i] == legs[..i];
      var lots := if leg.coin in inventory then inventory[leg.coin] else [];
      var quote := QuoteAmount(trades, leg.time);
      if quote.Some? {
        if IsBuy(leg, reading) {
          inventory := inventory[leg.coin := lots + [Lot(leg.amount, BuyInfo(Abs(quote.value) / leg.amount, leg.time))]];
        } else {
          var price := quote.value / leg.amount;
          var matches, rest := ConsumeQueue(lots, leg.amount);
          fills := fills + SaleFills(leg, price, matches);
          inventory := inventory[leg.coin := rest];
        }
      }
    }
    assert legs[..|legs|] == legs;
  }

  // -----------------------------------------------------------------------
  // Properties of matching

  ghost predicate PositiveLots(inventory: map<string, seq<Lot<BuyInfo>>>)
  {
    forall c :: c in inventory ==> forall k :: 0 <= k < |inventory[c]| ==> inventory[c][k].quantity > 0.0
  }

  ghost predicate PositiveFills(fills: seq<SpotFill>)
  {
    forall k :: 0 <= k < |fills| ==> fills[k].quantity > 0.0
  }

  /** One leg keeps every lot and every fill positive. */
  lemma StepPositive(trades: seq<Entry>, st: SpotState, leg: Leg, isBuy: bool)
    requires leg.amount > 0.0 && PositiveLots(st.inventory) && PositiveFills(st.fills)
    ensures PositiveLots(StepLeg(trades, st, leg, isBuy).inventory)
    ensures PositiveFills(StepLeg(trades, st, leg, isBuy).fills)
  {
    var lots := Lots(st.inventory, leg.coin);
    assert forall k :: 0 <= k < |lots| ==> lots[k].quantity > 0.0;
    if QuoteAmount(trades, leg.time).Some? && !isBuy {
      ConsumeKeepsPositive(lots, leg.amount);
      var o := Consume(lots, leg.amount);
      var added := SaleFills(leg, QuoteAmount(trades, leg.time).value / leg.amount, o.matches);
      var next := st.fills + added;
      forall k | 0 <= k < |next| ensures next[k].quantity > 0.0 {
        if k >= |st.fills| {
          assert next[k] == added[k - |st.fills|];
        } else {
          assert next[k] == st.fills[k];
        }
      }
    }
  }

  /** Every lot ever held has a positive remaining quantity, and every fill
      a positive quantity. */
  lemma {:induction false} RunPositive(trades: seq<Entry>, legs: seq<Leg>, reading: Reading)
    requires forall i :: 0 <= i < |legs| ==> legs[i].amount > 0.0
    ensures PositiveLots(RunLegs(trades, legs, reading).inventory)
    ensures forall k :: 0 <= k < |RunLegs(trades, legs, reading).fills| ==> RunLegs(trades, legs, reading).fills[k].quantity > 0.0
    decreases |legs|
  {
    if legs != [] {
      var init, leg := legs[..|legs| - 1], legs[|legs| - 1];
      RunPositive(trades, init, reading);
      StepPositive(trades, RunLegs(trades, init, reading), leg, IsBuy(leg, reading));
    }
  }

  function FillQuantityTotal(fs: seq<SpotFill>): real
  {
    if fs == [] then 0.0 else fs[0].quantity + FillQuantityTotal(fs[1..])
  }

  lemma {:induction false} SaleFillsQuantity(leg: Leg, price: real, ms: seq<Match<BuyInfo>>)
    ensures FillQuantityTotal(SaleFills(leg, price, ms)) == TotalMatched(ms)
    decreases |ms|
  {
    if ms != [] {
      var fs, tail := SaleFills(leg, price, ms), SaleFills(leg, price, ms[1..]);
      forall k | 0 <= k < |tail| ensures fs[1..][k] == tail[k] {
        assert ms[1..][k] == ms[k + 1];
      }
      assert fs[1..] == tail;
      SaleFillsQuantity(leg, price, ms[1..]);
    }
  }

  lemma SaleFillAt(leg: Leg, price: real, ms: seq<Match<BuyInfo>>, info: BuyInfo, k: nat)
    requires k < |ms| && ms[k].info == info
    ensures var f := SaleFills(leg, price, ms)[k];
      && f.coin == leg.coin && f.buyTime == info.time && f.buyPrice == info.price
      && f.sellTime == leg.time && f.sellPrice == price
      && f.quantity == ms[k].matched && f.pnl == Profit(price, info.price, f.quantity)
  {
  }

  /** The fills of one sale against a queue: the k-th is against the k-th lot
      (oldest first) at that lot's price and time, and realises (sell price -
      lot price) per unit. */
  lemma SaleFillsFifo(leg: Leg, price: real, lots: seq<Lot<BuyInfo>>)
    requires leg.amount > 0.0
    ensures var fs := SaleFills(leg, price, Consume(lots, leg.amount).matches);
      && |fs| <= |lots|
      && (forall k :: 0 <= k < |fs| ==>
            && fs[k].coin == leg.coin
            && fs[k].buyTime == lots[k].info.time && fs[k].buyPrice == lots[k].info.price
            && fs[k].sellTime == leg.time && fs[k].sellPrice == price
            && fs[k].pnl == Profit(price, lots[k].info.price, fs[k].quantity))
  {
    var ms := Consume(lots, leg.amount).matches;
    var fs := SaleFills(leg, price, ms);
    ConsumeIsFifo(lots, leg.amount);
    forall k | 0 <= k < |fs|
      ensures && fs[k].coin == leg.coin
              && fs[k].buyTime == lots[k].info.time && fs[k].buyPrice == lots[k].info.price
              && fs[k].sellTime == leg.time && fs[k].sellPrice == price
              && fs[k].pnl == Profit(price, lots[k].info.price, fs[k].quantity)
    {
      SaleFillAt(leg, price, ms, lots[k].info, k);
    }
  }

  /** Together the fills of a sale never sell more than the leg, and they
      sell all of it unless the queue ran out. */
  lemma SaleFillsConserve(leg: Leg, price: real, lots: seq<Lot<BuyInfo>>)
    requires leg.amount > 0.0
    ensures FillQuantityTotal(SaleFills(leg, price, Consume(lots, leg.amount).matches)) <= leg.amount
    ensures Consume(lots, leg.amount).rest != [] ==>
      FillQuantityTotal(SaleFills(leg, price, Consume(lots, leg.amount).matches)) == leg.amount
  {
    ConsumeConserves(lots, leg.amount);
    SaleFillsQuantity(leg, price, Consume(lots, leg.amount).matches);
  }

  /** A sell with a USDT price appends exactly the fills of consuming the
      coin's queue, and leaves the rest of that queue behind. */
  lemma SaleStep(trades: seq<Entry>, st: SpotState, leg: Leg)
    requires leg.amount > 0.0 && QuoteAmount(trades, leg.time).Some?
    ensures var o := Consume(Lots(st.inventory, leg.coin), leg.amount);
      var next := StepLeg(trades, st, leg, false);
      && next.fills == st.fills + SaleFills(leg, QuoteAmount(trades, leg.time).value / leg.amount, o.matches)
      && Lots(next.inventory, leg.coin) == o.rest
  {
  }

  /** A buy with a USDT price appends one lot, at |USDT| / amount, to the
      coin's queue. */
  lemma BuyStep(trades: seq<Entry>, st: SpotState, leg: Leg)
    requires leg.amount > 0.0 && QuoteAmount(trades, leg.time).Some?
    ensures var next := StepLeg(trades, st, leg, true);
      Lots(next.inventory, leg.coin)
        == Lots(st.inventory, leg.coin) + [Lot(leg.amount, BuyInfo(Abs(QuoteAmount(trades, leg.time).value) / leg.amount, leg.time))]
  {
  }

  /** Every leg passes the test as written; read by the row's own sign,
      exactly the buy legs pass it. */
  lemma LegSide(trades: seq<Entry>, l: Leg)
    requires l in Legs(trades)
    ensures IsBuy(l, AsWritten)
    ensures IsBuy(l, Corrected) <==> l in BuyLegs(trades)
  {
  }

  /** As written, every leg takes the buy branch, so nothing is ever realised. */
  lemma {:induction false} AsWrittenNoFills(trades: seq<Entry>, legs: seq<Leg>)
    requires forall i :: 0 <= i < |legs| ==> legs[i].amount > 0.0
    ensures RunLegs(trades, legs, AsWritten).fills == []
    decreases |legs|
  {
    if legs != [] {
      AsWrittenNoFills(trades, legs[..|legs| - 1]);
    }
  }

  // -----------------------------------------------------------------------
  // Fees

  /** The distinct coins of the fee rows, first occurrence first. */
  function Coins(fees: seq<Entry>): (cs: seq<string>)
    ensures Distinct(cs)
    ensures forall i :: 0 <= i < |fees| ==> fees[i].coin in cs
    decreases |fees|
  {
    if fees == [] then []
    else
      var init := Coins(fees[..|fees| - 1]);
      var c := fees[|fees| - 1].coin;
      assert forall i :: 0 <= i < |fees| - 1 ==> fees[i] == fees[..|fees| - 1][i];
      if c in init then init else init + [c]
  }

  /** Sum over the coins of |sum of that coin's fee amounts|. */
  function FeeOverCoins(fees: seq<Entry>, coins: seq<string>): (t: real)
    ensures t >= 0.0
    decreases |coins|
  {
    if coins == [] then 0.0
    else FeeOverCoins(fees, coins[..|coins| - 1]) + Abs(SumBy(Having(fees, EntryCoin, coins[|coins| - 1]), EntryAmount))
  }

  function TotalFees(fees: seq<Entry>): real
  {
    FeeOverCoins(fees, Coins(fees))
  }

  lemma {:induction false} SumNonPositive(s: seq<Entry>)
    requires forall i :: 0 <= i < |s| ==> s[i].amount <= 0.0
    ensures SumBy(s, EntryAmount) <= 0.0
    decreases |s|
  {
    if s != [] {
      SumNonPositive(s[..|s| - 1]);
    }
  }

  lemma {:induction false} FeeOverDebits(fees: seq<Entry>, coins: seq<string>)
    requires forall i :: 0 <= i < |fees| ==> fees[i].amount <= 0.0
    ensures FeeOverCoins(fees, coins) == -SumOverKeys(fees, coins, EntryCoin, EntryAmount)
    decreases |coins|
  {
    if coins != [] {
      FeeOverDebits(fees, coins[..|coins| - 1]);
      var h := Having(fees, EntryCoin, coins[|coins| - 1]);
      forall i | 0 <= i < |h| ensures h[i].amount <= 0.0 {
        assert h[i] in h;
      }
      SumNonPositive(h);
    }
  }

  /** When every fee row is a debit (the ledger records fees as negative
      amounts), the fee total is exactly the total paid. */
  lemma FeesAreTotalDebit(fees: seq<Entry>)
    requires forall i :: 0 <= i < |fees| ==> fees[i].amount <= 0.0
    ensures TotalFees(fees) == -SumBy(fees, EntryAmount)
  {
    FeeOverDebits(fees, Coins(fees));
    PartitionSum(fees, Coins(fees), EntryCoin, EntryAmount);
  }

  // -----------------------------------------------------------------------
  // Report

  function MinBuyTime(fills: seq<SpotFill>): (t: int)
    requires |fills| > 0
    ensures forall i :: 0 <= i < |fills| ==> t <= fills[i].buyTime
    ensures exists i :: 0 <= i < |fills| && t == fills[i].buyTime
  {
    if |fills| == 1 then fills[0].buyTime
    else
      var m := MinBuyTime(fills[1..]);
      assert forall i :: 1 <= i < |fills| ==> fills[i] == fills[1..][i - 1];
      if fills[0].buyTime <= m then fills[0].buyTime else m
  }

  function SellTimes(fills: seq<SpotFill>): (ts: seq<int>)
    ensures |ts| == |fills|
  {
    seq(|fills|, i requires 0 <= i < |fills| => fills[i].sellTime)
  }

  /** The running sums of realised pnl, one per fill. */
  function Cumulative(fills: seq<SpotFill>): (cs: seq<real>)
    ensures |cs| == |fills|
  {
    seq(|fills|, i requires 0 <= i < |fills| => SumBy(fills[..i + 1], FillPnl))
  }

  /** The chart loop. */
  method BuildSpotChart(fills: seq<SpotFill>) returns (labels: seq<int>, data: seq<real>)
    requires |fills| > 0
    ensures labels == [MinBuyTime(fills)] + SellTimes(fills)
    ensures data == [0.0] + Cumulative(fills)
  {
    labels := [MinBuyTime(fills)];
    data := [0.0];
    var running := 0.0;
    for i := 0 to |fills|
      invariant running == SumBy(fills[..i], FillPnl)
      invariant labels == [MinBuyTime(fills)] + SellTimes(fills)[..i]
      invariant data == [0.0] + Cumulative(fills)[..i]
    {
      SumByPrefix(fills, i, FillPnl);
      running := running + fills[i].pnl;
      labels := labels + [fills[i].sellTime];
      data := data + [running];
      assert SellTimes(fills)[..i + 1] == SellTimes(fills)[..i] + [fills[i].sellTime];
      assert Cumulative(fills)[i] == running;
      assert Cumulative(fills)[..i + 1] == Cumulative(fills)[..i] + [running];
    }
    assert SellTimes(fills)[..|fills|] == SellTimes(fills);
    assert Cumulative(fills)[..|fills|] == Cumulative(fills);
  }

  /** The chart steps by one fill's pnl at a time from zero, so it ends at
      the gross realised pnl. */
  lemma CumulativeSteps(fills: seq<SpotFill>)
    requires |fills| > 0
    ensures var cs := [0.0] + Cumulative(fills);
      && cs[0] == 0.0
      && (forall i :: 0 <= i < |fills| ==> cs[i + 1] == cs[i] + fills[i].pnl)
      && cs[|fills|] == SumBy(fills, FillPnl)
  {
    var cs := [0.0] + Cumulative(fills);
    forall i | 0 <= i < |fills| ensures cs[i + 1] == cs[i] + fills[i].pnl {
      SumByPrefix(fills, i, FillPnl);
      assert cs[i + 1] == Cumulative(fills)[i];
      if i > 0 {
        assert cs[i] == Cumulative(fills)[i - 1];
        assert (i - 1) + 1 == i;
      } else {
        assert fills[..0] == [];
      }
    }
    assert fills[..|fills|] == fills;
  }

  function LedgerTrades(rows: seq<SpotRow>): seq<Entry>
  {
    Filter(Entries(rows), IsTrade)
  }

  function LedgerFees(rows: seq<SpotRow>): seq<Entry>
  {
    Filter(Entries(rows), IsFee)
  }

  /** The trade rows and the fee rows of the ledger: exactly the coerced rows
      of each type, in time order. */
  lemma LedgerSplit(rows: seq<SpotRow>)
    ensures SortedBy(LedgerTrades(rows), EntryTime) && SortedBy(LedgerFees(rows), EntryTime)
    ensures forall e :: e in LedgerTrades(rows) <==> e in Coerced(rows) && IsTrade(e)
    ensures forall e :: e in LedgerFees(rows) <==> e in Coerced(rows) && IsFee(e)
    ensures forall e :: multiset(LedgerTrades(rows))[e] == if IsTrade(e) then multiset(Coerced(rows))[e] else 0
    ensures forall e :: multiset(LedgerFees(rows))[e] == if IsFee(e) then multiset(Coerced(rows))[e] else 0
  {
    var es := Entries(rows);
    FilterSorted(es, IsTrade, EntryTime);
    FilterSorted(es, IsFee, EntryTime);
    FilterComplete(es, IsTrade);
    FilterComplete(es, IsFee);
    FilterCounts(es, IsTrade);
    FilterCounts(es, IsFee);
    assert forall e :: e in es <==> e in multiset(Coerced(rows));
  }

  /** The matching state after all legs of the ledger. */
  function Realised(rows: seq<SpotRow>, reading: Reading): SpotState
  {
    var trades := LedgerTrades(rows);
    RunLegs(trades, Legs(trades), reading)
  }

  /** The report over the realised fills: the table is the fills, the
      chart starts at 0 at the earliest buy, steps to each fill's sell time
      and ends at the gross pnl, and the net pnl is that minus the fees. */
  function ReportOf(fills: seq<SpotFill>, fees: real): (r: SpotReport)
    requires |fills| > 0
    ensures r.trades == fills && r.tradeCount == |fills| && r.totalFees == fees
    ensures |r.labels| == |r.data| == |fills| + 1
    ensures r.data[0] == 0.0 && r.totalPnl == r.data[|fills|] - fees
    ensures forall k :: 0 <= k < |fills| ==>
      && r.data[k + 1] == r.data[k] + fills[k].pnl
      && r.labels[0] <= fills[k].buyTime && r.labels[k + 1] == fills[k].sellTime
  {
    CumulativeSteps(fills);
    SpotReport(SumBy(fills, FillPnl) - fees, |fills|, fees,
               [MinBuyTime(fills)] + SellTimes(fills), [0.0] + Cumulative(fills), fills)
  }

  /** No realised fill is an error; otherwise the report over the fills,
      net of the fees. */
  function SpotAnalysisBy(rows: seq<SpotRow>, reading: Reading): (r: Result<SpotReport, SpotError>)
    ensures r.Err? <==> Realised(rows, reading).fills == []
    ensures r.Ok? ==> r.value.trades == Realised(rows, reading).fills && r.value.totalFees == TotalFees(LedgerFees(rows))
  {
    var fills := Realised(rows, reading).fills;
    if fills == [] then Err(NoRealizedPnl) else Ok(ReportOf(fills, TotalFees(LedgerFees(rows))))
  }

  /** The spot analysis with the buy/sell test reading the row's own sign. */
  function SpotAnalysis(rows: seq<SpotRow>): Result<SpotReport, SpotError>
  {
    SpotAnalysisBy(rows, Corrected)
  }

  /** The analysis as the code reads realises nothing on any ledger. */
  lemma SpotAsWrittenAlwaysFails(rows: seq<SpotRow>)
    ensures SpotAnalysisBy(rows, AsWritten) == Err(NoRealizedPnl)
  {
    var trades := LedgerTrades(rows);
    AsWrittenNoFills(trades, Legs(trades));
  }

  /** The report's figures agree: the net pnl is the chart's last point
      minus the fees, the chart has one point per fill plus the origin, and
      every realised fill has a positive quantity. */
  lemma SpotReportConsistent(rows: seq<SpotRow>)
    requires SpotAnalysis(rows).Ok?
    ensures var r := SpotAnalysis(rows).value;
      && r.tradeCount == |r.trades| > 0
      && |r.labels| == |r.data| == r.tradeCount + 1
      && r.data[0] == 0.0
      && r.totalPnl == r.data[r.tradeCount] - r.totalFees
      && r.totalFees >= 0.0
      && forall k :: 0 <= k < |r.trades| ==> r.trades[k].quantity > 0.0 && r.labels[0] <= r.trades[k].buyTime
  {
    var trades := LedgerTrades(rows);
    RunPositive(trades, Legs(trades), Corrected);
    CumulativeSteps(RunLegs(trades, Legs(trades), Corrected).fills);
  }

  /** A worked ledger: buy 10 X for 20 USDT at t=1, sell them for 30 USDT at
      t=2. One fill realises 10 USDT at buy price 2 and sell price 3; the
      USDT legs themselves realise nothing. */
  lemma SpotRoundTrip(x: string)
    requires x != QUOTE
    ensures SpotAnalysis(ExampleRows(x))
         == Ok(SpotReport(10.0, 1, 0.0, [1, 2], [0.0, 10.0], [SpotFill(x, 10.0, 10.0, 2.0, 3.0, 1, 2)]))
  {
    var fill := SpotFill(x, 10.0, 10.0, 2.0, 3.0, 1, 2);
    ExampleLedger(x);
    ExampleLegs(x);
    ExampleRun(x);
    assert Realised(ExampleRows(x), Corrected).fills == [fill];
    assert TotalFees(LedgerFees(ExampleRows(x))) == 0.0;
    assert SpotAnalysis(ExampleRows(x)) == Ok(ReportOf([fill], 0.0));
    ExampleReport(x);
  }

  lemma ExampleReport(x: string)
    ensures ReportOf([SpotFill(x, 10.0, 10.0, 2.0, 3.0, 1, 2)], 0.0)
         == SpotReport(10.0, 1, 0.0, [1, 2], [0.0, 10.0], [SpotFill(x, 10.0, 10.0, 2.0, 3.0, 1, 2)])
  {
    var fill := SpotFill(x, 10.0, 10.0, 2.0, 3.0, 1, 2);
    assert SumBy([fill], FillPnl) == 10.0 by {
      assert [fill][..0] == [];
    }
    CumulativeSteps([fill]);
    assert Cumulative([fill]) == [10.0];
    assert SellTimes([fill]) == [2];
  }

  function ExampleRows(x: string): seq<SpotRow>
  {
    [SpotRow(1, x, Some("trade"), Value(10.0)), SpotRow(1, QUOTE, Some("trade"), Value(-20.0)),
     SpotRow(2, x, Some("trade"), Value(-10.0)), SpotRow(2, QUOTE, Some("trade"), Value(30.0))]
  }

  lemma ExampleSorted(x: string)
    requires x != QUOTE
    ensures Entries(ExampleRows(x)) == ExampleEntries(x)
  {
    var es := ExampleEntries(x);
    assert Coerced(ExampleRows(x)) == es;
    SortByIdentity(es, EntryTime);
  }

  lemma ExampleLedger(x: string)
    requires x != QUOTE
    ensures LedgerTrades(ExampleRows(x)) == ExampleEntries(x)
    ensures LedgerFees(ExampleRows(x)) == []
  {
    ExampleSorted(x);
    ExampleAllTrades(x);
    ExampleNoFees(x);
  }

  lemma ExampleAllTrades(x: string)
    requires x != QUOTE
    ensures Filter(ExampleEntries(x), IsTrade) == ExampleEntries(x)
  {
    FilterAll(ExampleEntries(x), IsTrade);
  }

  lemma ExampleNoFees(x: string)
    requires x != QUOTE
    ensures Filter(ExampleEntries(x), IsFee) == []
  {
    FilterNone(ExampleEntries(x), IsFee);
  }

  function ExampleEntries(x: string): seq<Entry>
  {
    [Entry(1, x, Some("trade"), 10.0), Entry(1, QUOTE, Some("trade"), -20.0),
     Entry(2, x, Some("trade"), -10.0), Entry(2, QUOTE, Some("trade"), 30.0)]
  }

  function ExampleLegList(x: string): seq<Leg>
  {
    [Leg(1, x, 10.0, true), Leg(1, QUOTE, 20.0, false), Leg(2, QUOTE, 30.0, true), Leg(2, x, 10.0, false)]
  }

  lemma ExampleSides(x: string)
    requires x != QUOTE
    ensures BuyLegs(ExampleEntries(x)) == [Leg(1, x, 10.0, true), Leg(2, QUOTE, 30.0, true)]
    ensures SellLegs(ExampleEntries(x)) == [Leg(1, QUOTE, 20.0, false), Leg(2, x, 10.0, false)]
  {
    var es := ExampleEntries(x);
    var b1, b2 := Leg(1, x, 10.0, true), Leg(2, QUOTE, 30.0, true);
    var s1, s2 := Leg(1, QUOTE, 20.0, false), Leg(2, x, 10.0, false);
    assert es[..1][..0] == [];
    assert es[..2][..1] == es[..1];
    assert es[..3][..2] == es[..2];
    assert es[..3] == es[..|es| - 1];
    assert BuyLegs(es[..1]) == [b1];
    assert BuyLegs(es[..2]) == [b1];
    assert BuyLegs(es[..3]) == [b1];
    assert SellLegs(es[..1]) == [];
    assert SellLegs(es[..2]) == [s1];
    assert SellLegs(es[..3]) == [s1, s2];
  }

  lemma ExampleLegs(x: string)
    requires x != QUOTE
    ensures Legs(ExampleEntries(x)) == ExampleLegList(x)
  {
    var b1, b2 := Leg(1, x, 10.0, true), Leg(2, QUOTE, 30.0, true);
    var s1, s2 := Leg(1, QUOTE, 20.0, false), Leg(2, x, 10.0, false);
    ExampleSides(x);
    assert [b1, b2] + [s1, s2] == [b1, b2, s1, s2];
    ExampleSort(x);
  }

  lemma ExampleSortTail(x: string)
    requires x != QUOTE
    ensures SortBy([Leg(2, QUOTE, 30.0, true), Leg(1, QUOTE, 20.0, false), Leg(2, x, 10.0, false)], LegTime)
         == [Leg(1, QUOTE, 20.0, false), Leg(2, QUOTE, 30.0, true), Leg(2, x, 10.0, false)]
  {
    var b2 := Leg(2, QUOTE, 30.0, true);
    var s1, s2 := Leg(1, QUOTE, 20.0, false), Leg(2, x, 10.0, false);
    assert SortBy([s2], LegTime) == [s2];
    assert SortBy([s1, s2], LegTime) == [s1, s2];
    assert [b2, s1, s2][1..] == [s1, s2];
    assert [s1, s2][1..] == [s2];
    assert InsertBy(b2, [s2], LegTime) == [b2, s2];
    assert InsertBy(b2, [s1, s2], LegTime) == [s1, b2, s2];
  }

  lemma ExampleSort(x: string)
    requires x != QUOTE
    ensures SortBy([Leg(1, x, 10.0, true), Leg(2, QUOTE, 30.0, true), Leg(1, QUOTE, 20.0, false), Leg(2, x, 10.0, false)], LegTime)
         == ExampleLegList(x)
  {
    var b1, b2 := Leg(1, x, 10.0, true), Leg(2, QUOTE, 30.0, true);
    var s1, s2 := Leg(1, QUOTE, 20.0, false), Leg(2, x, 10.0, false);
    var all := [b1, b2, s1, s2];
    ExampleSortTail(x);
    assert all[1..] == [b2, s1, s2];
    assert InsertBy(b1, [s1, b2, s2], LegTime) == [b1, s1, b2, s2];
    assert SortBy(all, LegTime) == InsertBy(all[0], SortBy(all[1..], LegTime), LegTime);
    assert SortBy([b1, b2, s1, s2], LegTime) == [b1, s1, b2, s2];
  }

  lemma ExampleRun(x: string)
    requires x != QUOTE
    ensures RunLegs(ExampleEntries(x), ExampleLegList(x), Corrected).fills == [SpotFill(x, 10.0, 10.0, 2.0, 3.0, 1, 2)]
  {
    var es, legs := ExampleEntries(x), ExampleLegList(x);
    ExampleFirstLegs(x);
    assert forall i :: 0 <= i < |legs| ==> legs[i].amount > 0.0;
    RunLegsSnoc(es, legs, 3, Corrected);
    assert legs[..4] == legs;
    ExampleLastLeg(x, RunLegs(es, legs[..3], Corrected));
  }

  /** The sell of 10 X at t=2, priced 30 / 10, against the lot of 10 X
      bought at 2. */
  lemma ExampleLastLeg(x: string, st: SpotState)
    requires x != QUOTE
    requires st.fills == [] && Lots(st.inventory, x) == [Lot(10.0, BuyInfo(2.0, 1))]
    ensures StepLeg(ExampleEntries(x), st, Leg(2, x, 10.0, false), false).fills == [SpotFill(x, 10.0, 10.0, 2.0, 3.0, 1, 2)]
  {
    var es, leg := ExampleEntries(x), Leg(2, x, 10.0, false);
    ExampleQuotes(x);
    SaleStep(es, st, leg);
    ConsumeWhole(Lot(10.0, BuyInfo(2.0, 1)));
    assert SaleFills(leg, 3.0, [Match(BuyInfo(2.0, 1), 10.0, 10.0)]) == [SpotFill(x, 10.0, 10.0, 2.0, 3.0, 1, 2)];
  }

  lemma ExampleQuotes(x: string)
    requires x != QUOTE
    ensures QuoteAmount(ExampleEntries(x), 1) == Some(-20.0)
    ensures QuoteAmount(ExampleEntries(x), 2) == Some(30.0)
  {
    var es := ExampleEntries(x);
    assert FirstQuote(es, 1, 0) == 1;
    assert FirstQuote(es, 2, 2) == 3;
    assert FirstQuote(es, 2, 0) == 3;
  }

  /** The ledger's first three legs buy 10 X at 2 and 30 USDT at 1; the
      USDT sell at t=1 finds no USDT lot and realises nothing. */
  lemma ExampleFirstLegs(x: string)
    requires x != QUOTE
    ensures var st := RunLegs(ExampleEntries(x), ExampleLegList(x)[..3], Corrected);
      st.fills == [] && Lots(st.inventory, x) == [Lot(10.0, BuyInfo(2.0, 1))]
  {
    var es, legs := ExampleEntries(x), ExampleLegList(x);
    ExampleSecondLeg(x);
    RunLegsSnoc(es, legs, 2, Corrected);
  }

  /** After the USDT sell at t=1: still no fill, and the X lot. */
  lemma ExampleSecondLeg(x: string)
    requires x != QUOTE
    ensures var st := RunLegs(ExampleEntries(x), ExampleLegList(x)[..2], Corrected);
      st.fills == [] && Lots(st.inventory, x) == [Lot(10.0, BuyInfo(2.0, 1))]
  {
    var es, legs := ExampleEntries(x), ExampleLegList(x);
    ExampleFirstLeg(x);
    ExampleQuotes(x);
    RunLegsSnoc(es, legs, 1, Corrected);
    SaleStep(es, RunLegs(es, legs[..1], Corrected), legs[1]);
  }

  /** After the X buy at t=1: one lot of 10 X at 20 / 10, no USDT lot. */
  lemma ExampleFirstLeg(x: string)
    requires x != QUOTE
    ensures var st := RunLegs(ExampleEntries(x), ExampleLegList(x)[..1], Corrected);
      && st.fills == [] && Lots(st.inventory, x) == [Lot(10.0, BuyInfo(2.0, 1))]
      && Lots(st.inventory, QUOTE) == []
  {
    var es, legs := ExampleEntries(x), ExampleLegList(x);
    ExampleQuotes(x);
    RunLegsSnoc(es, legs, 0, Corrected);
    assert legs[..0] == [];
    BuyStep(es, SpotState(map[], []), legs[0]);
    assert Abs(-20.0) / 10.0 == 2.0;
  }

  /** The walk grows one leg at a time. */
  lemma RunLegsSnoc(trades: seq<Entry>, legs: seq<Leg>, k: nat, reading: Reading)
    requires k < |legs| && forall i :: 0 <= i < |legs| ==> legs[i].amount > 0.0
    ensures RunLegs(trades, legs[..k + 1], reading)
         == StepLeg(trades, RunLegs(trades, legs[..k], reading), legs[k], IsBuy(legs[k], reading))
  {
    assert legs[..k + 1][..k] == legs[..k];
  }

  /** The spot analysis as the engine runs it, with the side of a leg read
      as written (`AsWritten`) or by the row's own sign (`Corrected`). */
  method AnalyzeSpotTrades(rows: seq<SpotRow>, reading: Reading) returns (r: Result<SpotReport, SpotError>)
    ensures r == SpotAnalysisBy(rows, reading)
  {
    var trades := LedgerTrades(rows);
    var legs := Legs(trades);
    var inventory, fills := ProcessLegs(trades, legs, reading);
    assert fills == Realised(rows, reading).fills;
    if fills == [] {
      return Err(NoRealizedPnl);
    }
    var fees := TotalFees(LedgerFees(rows));
    var labels, data := BuildSpotChart(fills);
    r := Ok(SpotReport(SumBy(fills, FillPnl) - fees, |fills|, fees, labels, data, fills));
    assert r.value == ReportOf(fills, fees);
  }
}
