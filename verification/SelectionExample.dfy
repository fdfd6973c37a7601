/** Concrete markets: where the selection loop of a new strategy does not return the best signal, and where an order
    is refused. */
module SelectionExample {
  import opened Wrappers
  import opened Reals
  import opened SymbolFilters
  import opened Market
  import opened PathSearch
  import opened PathProperties
  import opened Evaluation
  import opened NoArbitrage
  import opened Selection
  import opened CircularArbitrage
  import opened StrategyRuns

  const FREE := SymbolFilter(PriceFilter(0.0, 0.0, 0.0), LotSizeFilter(0.0, 0.0, 0.0), LotSizeFilter(0.0, 0.0, 0.0))

  /** No lot grid and no maximum, but there may be a minimum. */
  predicate NoLots(f: SymbolFilter) {
    f.price == FREE.price && f.lot == FREE.lot.(minQty := f.lot.minQty) && f.marketLot == FREE.marketLot
  }

  const AB := Symbol("A", "B", "AB", FREE)
  const BC := Symbol("B", "C", "BC", FREE)
  const CA := Symbol("C", "A", "CA", FREE)
  const BD := Symbol("B", "D", "BD", FREE)
  const DA := Symbol("D", "A", "DA", FREE)
  const LISTED := [AB, BC, CA, BD, DA]

  /** The four cycles from A: through C and through D, and their reverses. */
  const THROUGH_C := [NewOrder(AB, SELL), NewOrder(BC, SELL), NewOrder(CA, SELL)]
  const THROUGH_D := [NewOrder(AB, SELL), NewOrder(BD, SELL), NewOrder(DA, SELL)]
  const BACK_C := [NewOrder(CA, BUY), NewOrder(BC, BUY), NewOrder(AB, BUY)]
  const BACK_D := [NewOrder(DA, BUY), NewOrder(BD, BUY), NewOrder(AB, BUY)]

  const SNAPSHOT := map["AB" := Flat("AB", 0.4), "BC" := Flat("BC", 1.0), "CA" := Flat("CA", 3.0),
      "BD" := Flat("BD", 1.0), "DA" := Flat("DA", 2.0)]

  /** A strategy as it is constructed on these symbols, with every symbol quoted. */
  ghost const INITIAL := Strategy("A", ArbitragePaths(LISTED, "A", ARBITRAGE_DEPTH), SNAPSHOT, map["A" := 100.0])

  /** Now the cycle through C triples the balance and the one through D doubles it, before fees. */
  const UPDATE := Flat("AB", 1.0)

  function Flat(name: string, price: real): Ticker
    requires 0.0 < price
  {
    BookTicker(name, 0, price, 1.0, price, 1.0)
  }

  lemma FlowFirst(o: Order, rest: Path, book: Book, amount: real, out: real)
    requires Quoted(rest, book) && o.symbol.name in book && out == LegAmount(o, book[o.symbol.name], amount)
    ensures Quoted([o] + rest, book) && Flow([o] + rest, book, amount) == Flow(rest, book, out)
  {}

  /** An amount sold at a bid, after the fee. */
  function Sold(amount: real, bid: real): real {
    amount * bid * KEEP
  }

  lemma FreeSell(o: Order, t: Ticker, amount: real)
    requires o.way == SELL && NoLots(o.symbol.filter) && 0.0 <= amount
    ensures LegAmount(o, t, amount) == Sold(amount, t.bid) && 0.0 <= Sold(amount, t.bid)
  {
    MulNonNeg(amount, t.bid);
  }

  /** Selling three times, with no lot grid. */
  lemma {:induction false} ThreeSells(a: Order, b: Order, c: Order, book: Book, amount: real)
    requires a.symbol.name in book && b.symbol.name in book && c.symbol.name in book && 0.0 <= amount
    requires forall o :: o in [a, b, c] ==> o.way == SELL && NoLots(o.symbol.filter)
    ensures Quoted([a, b, c], book)
    ensures Flow([a, b, c], book, amount)
            == Sold(Sold(Sold(amount, book[a.symbol.name].bid), book[b.symbol.name].bid), book[c.symbol.name].bid)
  {
    hide LegAmount, Sold;
    assert a in [a, b, c] && b in [a, b, c] && c in [a, b, c];
    var x := Sold(amount, book[a.symbol.name].bid);
    var y := Sold(x, book[b.symbol.name].bid);
    FreeSell(a, book[a.symbol.name], amount);
    FreeSell(b, book[b.symbol.name], x);
    FreeSell(c, book[c.symbol.name], y);
    FlowFirst(c, [], book, y, Sold(y, book[c.symbol.name].bid));
    assert [c] + [] == [c];
    FlowFirst(b, [c], book, x, y);
    assert [b] + [c] == [b, c];
    FlowFirst(a, [b, c], book, amount, x);
    assert [a] + [b, c] == [a, b, c];
  }

  /** A quoted path of three free sells signals with this pnl. */
  lemma {:induction false} SellCycle(a: Order, b: Order, c: Order, book: Book, gain: real)
    requires Quoted([a, b, c], book)
    requires forall o :: o in [a, b, c] ==> o.way == SELL && NoLots(o.symbol.filter)
    requires a.symbol.name in book && b.symbol.name in book && c.symbol.name in book
    requires book[a.symbol.name].bid == 1.0 && book[b.symbol.name].bid == 1.0 && book[c.symbol.name].bid == gain
             && 2.0 <= gain
    ensures var signal := EvaluatePath([a, b, c], book, 100.0).signal;
            signal.Some? && signal.value.pnl == 100.0 * KEEP * KEEP * KEEP * gain - 100.0
  {
    assert [a, b, c][0] == a && [a, b, c][1] == b && [a, b, c][2] == c;
    assert a in [a, b, c] && b in [a, b, c] && c in [a, b, c];
    ThreeSells(a, b, c, book, 100.0);
    assert Tradable([a, b, c]);
    hide Flow, EvaluatePath;
    SignalIff([a, b, c], book, 100.0);
  }

  // ----- What the search enumerates -----

  /** The orders a coin allows on a symbol, unless the path already uses it. */
  function FreshOrders(coin: string, path: Path, symbol: Symbol): seq<Order> {
    if Unused(symbol, path) then OrdersOn(coin, symbol) else []
  }

  lemma {:induction false} OneMoreSymbol(coin: string, path: Path, symbols: seq<Symbol>, x: Symbol)
    ensures PossibleOrders(coin, UnusedSymbols(path, symbols + [x]))
            == PossibleOrders(coin, UnusedSymbols(path, symbols)) + FreshOrders(coin, path, x)
  {
    var before, more := UnusedSymbols(path, symbols), symbols + [x];
    assert more[..|more|-1] == symbols && more[|more|-1] == x;
    if Unused(x, path) {
      assert UnusedSymbols(path, more) == before + [x];
      assert (before + [x])[..|before|] == before;
    } else {
      assert UnusedSymbols(path, more) == before;
    }
  }

  lemma NoSymbols(coin: string, path: Path)
    ensures PossibleOrders(coin, UnusedSymbols(path, [])) == []
  {}

  lemma {:induction false} FiveSymbols(coin: string, path: Path, a: Symbol, b: Symbol, c: Symbol, d: Symbol, e: Symbol)
    ensures PossibleOrders(coin, UnusedSymbols(path, [a, b, c, d, e]))
            == FreshOrders(coin, path, a) + FreshOrders(coin, path, b) + FreshOrders(coin, path, c)
               + FreshOrders(coin, path, d) + FreshOrders(coin, path, e)
  {
    hide FreshOrders, PossibleOrders, UnusedSymbols;
    NoSymbols(coin, path);
    OneMoreSymbol(coin, path, [], a);
    OneMoreSymbol(coin, path, [a], b);
    OneMoreSymbol(coin, path, [a, b], c);
    OneMoreSymbol(coin, path, [a, b, c], d);
    OneMoreSymbol(coin, path, [a, b, c, d], e);
    assert [] + [a] == [a] && [a] + [b] == [a, b] && [a, b] + [c] == [a, b, c];
    assert [a, b, c] + [d] == [a, b, c, d] && [a, b, c, d] + [e] == [a, b, c, d, e];
  }

  lemma {:induction false} AllUnused(symbols: seq<Symbol>)
    ensures UnusedSymbols([], symbols) == symbols
  {
    if symbols != [] {
      AllUnused(symbols[..|symbols|-1]);
    }
  }

  lemma UnusedAfterOne(a: Order, x: Symbol)
    ensures Unused(x, [a]) <==> !a.symbol.Same(x)
  {
    assert [a][0] == a;
  }

  lemma UnusedAfterTwo(a: Order, b: Order, x: Symbol)
    ensures Unused(x, [a, b]) <==> !a.symbol.Same(x) && !b.symbol.Same(x)
  {
    assert [a, b][0] == a && [a, b][1] == b;
  }

  lemma {:induction false} FirstOrders()
    ensures PossibleOrders("A", LISTED) == [NewOrder(AB, SELL), NewOrder(CA, BUY), NewOrder(DA, BUY)]
  {
    AllUnused(LISTED);
    FiveSymbols("A", [], AB, BC, CA, BD, DA);
  }

  /** The orders that can follow one or two orders on the listed symbols. */
  lemma {:induction false} SecondOrders(a: Order)
    ensures NextOrders([a], LISTED)
            == (if a.symbol.Same(AB) then [] else OrdersOn(ResultingCoin(a), AB))
               + (if a.symbol.Same(BC) then [] else OrdersOn(ResultingCoin(a), BC))
               + (if a.symbol.Same(CA) then [] else OrdersOn(ResultingCoin(a), CA))
               + (if a.symbol.Same(BD) then [] else OrdersOn(ResultingCoin(a), BD))
               + (if a.symbol.Same(DA) then [] else OrdersOn(ResultingCoin(a), DA))
  {
    hide OrdersOn, PossibleOrders, UnusedSymbols, Unused;
    FiveSymbols(ResultingCoin(a), [a], AB, BC, CA, BD, DA);
    UnusedAfterOne(a, AB);
    UnusedAfterOne(a, BC);
    UnusedAfterOne(a, CA);
    UnusedAfterOne(a, BD);
    UnusedAfterOne(a, DA);
  }

  predicate SameAsOne(a: Order, b: Order, x: Symbol) {
    a.symbol.Same(x) || b.symbol.Same(x)
  }

  lemma {:induction false} ThirdOrders(a: Order, b: Order)
    ensures NextOrders([a, b], LISTED)
            == (if SameAsOne(a, b, AB) then [] else OrdersOn(ResultingCoin(b), AB))
               + (if SameAsOne(a, b, BC) then [] else OrdersOn(ResultingCoin(b), BC))
               + (if SameAsOne(a, b, CA) then [] else OrdersOn(ResultingCoin(b), CA))
               + (if SameAsOne(a, b, BD) then [] else OrdersOn(ResultingCoin(b), BD))
               + (if SameAsOne(a, b, DA) then [] else OrdersOn(ResultingCoin(b), DA))
  {
    hide OrdersOn, PossibleOrders, UnusedSymbols, Unused;
    FiveSymbols(ResultingCoin(b), [a, b], AB, BC, CA, BD, DA);
    assert [a, b][|[a, b]| - 1] == b;
    UnusedAfterTwo(a, b, AB);
    UnusedAfterTwo(a, b, BC);
    UnusedAfterTwo(a, b, CA);
    UnusedAfterTwo(a, b, BD);
    UnusedAfterTwo(a, b, DA);
  }

  lemma {:induction false} ExtendOne(path: Path, orders: seq<Order>, o: Order, start: string, closing: bool)
    ensures Extend(path, orders + [o], start, closing)
            == Extend(path, orders, start, closing)
               + (if closing && ResultingCoin(o) != start then [] else [path + [o]])
  {
    assert (orders + [o])[..|orders|] == orders;
  }

  lemma {:induction false} SearchOne(paths: seq<Path>, p: Path, remaining: nat)
    ensures SearchAll(paths + [p], LISTED, "A", remaining)
            == SearchAll(paths, LISTED, "A", remaining) + Search(p, LISTED, "A", remaining)
  {
    assert (paths + [p])[..|paths|] == paths;
  }

  lemma SearchNone(path: Path, remaining: nat)
    ensures SearchAll([], LISTED, "A", remaining) == [] && Extend(path, [], "A", false) == []
  {}

  lemma SearchStep(path: Path)
    ensures Search(path, LISTED, "A", 2)
            == SearchAll(Extend(path, NextOrders(path, LISTED), "A", false), LISTED, "A", 1)
  {}

  /** Two orders with one closing continuation, whatever else could follow without closing. */
  lemma {:induction false} LastLeg(a: Order, b: Order, orders: seq<Order>, c: Order)
    requires NextOrders([a, b], LISTED) == [c] + orders && ResultingCoin(c) == "A" && |orders| <= 1
    requires forall o :: o in orders ==> ResultingCoin(o) != "A"
    ensures Search([a, b], LISTED, "A", 1) == [[a, b, c]]
  {
    hide NextOrders, ResultingCoin;
    ExtendOne([a, b], [], c, "A", true);
    assert [] + [c] == [c] && [a, b] + [c] == [a, b, c];
    if orders != [] {
      ExtendOne([a, b], [c], orders[0], "A", true);
      assert [c] + orders == [c] + [orders[0]];
    }
    SearchAllDone([[a, b, c]], LISTED, "A");
  }

  lemma {:induction false} SearchFromOne(a: Order, orders: seq<Order>)
    requires NextOrders([a], LISTED) == orders && 1 <= |orders| <= 2
    ensures Search([a], LISTED, "A", 2)
            == Search([a, orders[0]], LISTED, "A", 1)
               + (if |orders| == 2 then Search([a, orders[1]], LISTED, "A", 1) else [])
  {
    hide NextOrders, Search, SearchAll, Extend;
    var b := orders[0];
    SearchStep([a]);
    SearchNone([a], 1);
    ExtendOne([a], [], b, "A", false);
    assert [] + [b] == [b] && [a] + [b] == [a, b];
    SearchOne([], [a, b], 1);
    assert [] + [[a, b]] == [[a, b]];
    if |orders| == 2 {
      var c := orders[1];
      ExtendOne([a], [b], c, "A", false);
      assert [b] + [c] == orders && [a] + [c] == [a, c];
      SearchOne([[a, b]], [a, c], 1);
      assert [[a, b]] + [[a, c]] == [[a, b], [a, c]];
    } else {
      assert orders == [b];
    }
  }

  lemma {:induction false} SearchFromSell()
    ensures Search([NewOrder(AB, SELL)], LISTED, "A", 2) == [THROUGH_C, THROUGH_D]
  {
    var a, c, d := NewOrder(AB, SELL), NewOrder(BC, SELL), NewOrder(BD, SELL);
    hide NextOrders, Search, UnusedSymbols, PossibleOrders;
    SecondOrders(a);
    ThirdOrders(a, c);
    ThirdOrders(a, d);
    assert NextOrders([a], LISTED) == [c, d];
    assert NextOrders([a, c], LISTED) == [NewOrder(CA, SELL)] + [];
    assert NextOrders([a, d], LISTED) == [NewOrder(DA, SELL)] + [];
    LastLeg(a, c, [], NewOrder(CA, SELL));
    LastLeg(a, d, [], NewOrder(DA, SELL));
    SearchFromOne(a, [c, d]);
  }

  /** Buying C or D first leaves one way on, and then only the way back through AB closes. */
  lemma {:induction false} SearchFromBuy(a: Order, b: Order, other: Order)
    requires (a, b, other) == (NewOrder(CA, BUY), NewOrder(BC, BUY), NewOrder(BD, SELL))
             || (a, b, other) == (NewOrder(DA, BUY), NewOrder(BD, BUY), NewOrder(BC, SELL))
    ensures Search([a], LISTED, "A", 2) == [[a, b, NewOrder(AB, BUY)]]
  {
    hide NextOrders, Search, UnusedSymbols, PossibleOrders;
    SecondOrders(a);
    ThirdOrders(a, b);
    assert NextOrders([a], LISTED) == [b];
    assert NextOrders([a, b], LISTED) == [NewOrder(AB, BUY)] + [other];
    LastLeg(a, b, [other], NewOrder(AB, BUY));
    SearchFromOne(a, [b]);
  }

  /** The paths the constructor finds. */
  lemma {:induction false} FourCycles()
    ensures ArbitragePaths(LISTED, "A", ARBITRAGE_DEPTH) == [THROUGH_C, THROUGH_D, BACK_C, BACK_D]
  {
    var a, c, d := NewOrder(AB, SELL), NewOrder(CA, BUY), NewOrder(DA, BUY);
    hide Search, SearchAll, PossibleOrders;
    FirstOrders();
    SearchFromSell();
    SearchFromBuy(c, NewOrder(BC, BUY), NewOrder(BD, SELL));
    SearchFromBuy(d, NewOrder(BD, BUY), NewOrder(BC, SELL));
    assert Singletons([a, c, d]) == [[a], [c], [d]];
    SearchOne([], [a], 2);
    SearchOne([[a]], [c], 2);
    SearchOne([[a], [c]], [d], 2);
    SearchNone([], 2);
    assert [] + [[a]] == [[a]] && [[a]] + [[c]] == [[a], [c]] && [[a], [c]] + [[d]] == [[a], [c], [d]];
  }

  // ----- Two signals, and the worse one returned -----

  /** With the reverses silent, the second of the two signals is returned. */
  lemma {:induction false} SecondIsReturned(s: Strategy, data: Ticker, p: Path, q: Path, r: Path, t: Path)
    requires s.paths == [p, q, r, t]
    requires forall path :: path in s.paths ==>
               Touches(path, data.symbol) && BalanceOf(s.balance, StartOf(path)) == 100.0
    requires EvaluatePath(q, NextBook(s, data), 100.0).signal.Some?
    requires EvaluatePath(r, NextBook(s, data), 100.0).signal.None?
             && EvaluatePath(t, NextBook(s, data), 100.0).signal.None?
    ensures EvaluatePath(p, NextBook(s, data), 100.0).signal in SignalsOf(StepOutcomes(s, data))
    ensures StepSignal(s, data) == EvaluatePath(q, NextBook(s, data), 100.0).signal
  {
    var now, signals := NextBook(s, data), SignalsOf(StepOutcomes(s, data));
    assert p in s.paths && q in s.paths && r in s.paths && t in s.paths;
    forall i | 0 <= i < 4 ensures signals[i] == EvaluatePath(s.paths[i], now, 100.0).signal {
      assert s.paths[i] in s.paths;
    }
    assert signals[0] in signals;
    hide EvaluatePath, StepOutcomes;
    StepIsProfitable(s, data);
    LoopPicksLast(signals);
    assert s.paths[1] == q && s.paths[2] == r && s.paths[3] == t;
    assert IsLast(signals, LastIndex(signals));
    assert LastIndex(signals) == 1;
  }

  lemma {:induction false} ReversesAreSilent(book: Book)
    requires Tradable(THROUGH_C) && Tradable(THROUGH_D) && NotCrossed(THROUGH_C, book) && NotCrossed(THROUGH_D, book)
    requires EvaluatePath(THROUGH_C, book, 100.0).signal.Some? && EvaluatePath(THROUGH_D, book, 100.0).signal.Some?
    ensures EvaluatePath(BACK_C, book, 100.0).signal.None? && EvaluatePath(BACK_D, book, 100.0).signal.None?
  {
    assert Reverse(THROUGH_C) == BACK_C;
    assert Reverse(THROUGH_D) == BACK_D;
    hide EvaluatePath, Reverse;
    NoSignalBothWays(THROUGH_C, book, 100.0, 100.0);
    NoSignalBothWays(THROUGH_D, book, 100.0, 100.0);
  }

  lemma {:induction false} AllTouched(path: Path)
    requires path in [THROUGH_C, THROUGH_D, BACK_C, BACK_D]
    ensures Touches(path, UPDATE.symbol) && StartOf(path) == "A"
  {
    assert THROUGH_C[0].symbol == THROUGH_D[0].symbol == BACK_C[2].symbol == BACK_D[2].symbol == AB;
  }

  /** The first update after construction touches two profitable cycles, and returns the second, which gains less than
      the first. */
  lemma {:induction false} LoopCanMissTheBest() returns (better: Signal)
    ensures Ready(INITIAL, LISTED)
    ensures INITIAL.paths == ArbitragePaths(LISTED, INITIAL.start, ARBITRAGE_DEPTH)
            == [THROUGH_C, THROUGH_D, BACK_C, BACK_D]
    ensures Some(better) in SignalsOf(StepOutcomes(INITIAL, UPDATE))
    ensures StepSignal(INITIAL, UPDATE).Some? && StepSignal(INITIAL, UPDATE).value.pnl < better.pnl
  {
    hide EvaluatePath, StepOutcomes, StepSignal, ArbitragePaths, Ready;
    FourCycles();
    InitialIsReady(LISTED, "A", SNAPSHOT, INITIAL.balance);
    var a, b, c := NewOrder(AB, SELL), NewOrder(BC, SELL), NewOrder(CA, SELL);
    var d, e := NewOrder(BD, SELL), NewOrder(DA, SELL);
    var now := NextBook(INITIAL, UPDATE);
    SellCycle(a, b, c, now, 3.0);
    SellCycle(a, d, e, now, 2.0);
    ReversesAreSilent(now);
    forall path | path in INITIAL.paths
      ensures Touches(path, UPDATE.symbol) && BalanceOf(INITIAL.balance, StartOf(path)) == 100.0
    {
      AllTouched(path);
    }
    SecondIsReturned(INITIAL, UPDATE, THROUGH_C, THROUGH_D, BACK_C, BACK_D);
    better := EvaluatePath(THROUGH_C, now, 100.0).signal.value;
  }

  // ----- An order below the exchange's minimum -----

  /** The symbol of the update when the exchange demands at least 1000 of it per order. */
  const LARGE_AB := AB.(filter := FREE.(lot := FREE.lot.(minQty := 1000.0)))

  /** A balance of 100 sent around the cycle through C gives a signal whose first order the exchange refuses, being
      below its minimum. */
  lemma {:induction false} SignalCanBeBelowMinimum()
    ensures var path := [NewOrder(LARGE_AB, SELL), NewOrder(BC, SELL), NewOrder(CA, SELL)];
            var signal := EvaluatePath(path, NextBook(INITIAL, UPDATE), 100.0).signal;
            && IsCycle(path, [LARGE_AB, BC, CA], "A", ARBITRAGE_DEPTH)
            && signal.Some? && |signal.value.orders| == 3
            && signal.value.orders[0] == NewOrder(LARGE_AB, SELL).(qty := 100.0, price := 1.0)
            && LARGE_AB.filter.ValidateQuantity(100.0) && !LARGE_AB.filter.MeetsLotFilters(100.0)
  {
    var a, b, c := NewOrder(LARGE_AB, SELL), NewOrder(BC, SELL), NewOrder(CA, SELL);
    var path, now := [a, b, c], NextBook(INITIAL, UPDATE);
    assert path[0] == a && path[1] == b && path[2] == c;
    assert a in path && b in path && c in path;
    ThreeSells(a, b, c, now, 100.0);
    SellCycle(a, b, c, now, 3.0);
    EvalStopsAt(path, now, 100.0);
    var fold := EvalLegs(path, now, 100.0);
    assert LegsDone(path, now, 100.0) > 0 && fold.orders[0] == Fill(a, now["AB"], 100.0);
  }
}
