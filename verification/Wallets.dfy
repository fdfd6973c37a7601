/** Replaying the orders of a signal, one by one, on a wallet of assets. */
module Wallets {
  import opened Wrappers
  import opened SymbolFilters
  import opened Market
  import opened Evaluation
  import opened NoArbitrage

  type Wallet = map<string, real>

  function Holding(w: Wallet, asset: string): real {
    if asset in w then w[asset] else 0.0
  }

  function Credit(w: Wallet, asset: string, amount: real): Wallet {
    w[asset := Holding(w, asset) + amount]
  }

  /** What a filled order takes, in the asset it starts from. */
  function Cost(o: Order): real {
    if o.way == BUY then o.qty * o.price else o.qty
  }

  /** What it brings in the resulting asset: the exchange keeps one part in a thousand. */
  function Proceeds(o: Order): real {
    var traded := if o.way == BUY then o.qty else o.qty * o.price;
    traded - traded / 1000.0
  }

  function Execute(w: Wallet, o: Order): Wallet {
    Credit(Credit(w, o.StartingAsset(), -Cost(o)), o.ResultingAsset(), Proceeds(o))
  }

  /** The wallet after the first k orders. */
  function Replay(w: Wallet, orders: Path, k: nat): Wallet
    requires k <= |orders|
    decreases k
  {
    if k == 0 then w else Replay(Execute(w, orders[0]), orders[1..], k - 1)
  }

  /** The wallet holds at least the floor, plus an amount of one asset. */
  ghost predicate Covers(w: Wallet, floor: Wallet, asset: string, amount: real) {
    forall a: string :: Holding(floor, a) + (if a == asset then amount else 0.0) <= Holding(w, a)
  }

  lemma PaidAtAsk(qty: real, amount: real, ask: real)
    requires 0.0 < ask && qty <= amount / ask
    ensures qty * ask <= amount
  {}

  /** A filled order costs no more than the amount it was sized on, and brings what the evaluation counted. */
  lemma FilledLeg(o: Order, t: Ticker, amount: real)
    requires o.way != HOLD && o.symbol.filter.WellFormed() && 0.0 <= amount
    ensures Cost(Fill(o, t, amount)) <= amount && Proceeds(Fill(o, t, amount)) == LegAmount(o, t, amount)
  {
    hide LegQty, RoundToNearest, SymbolFilter.Step, SymbolFilter.MaxQty;
    LegQtyBounds(o, t, amount);
    var filled, qty := Fill(o, t, amount), LegQty(o, t, amount);
    assert filled.qty == qty && filled.way == o.way;
    if o.way == BUY {
      assert filled.price == t.ask && Need(o, t, amount) == amount / t.ask;
      PaidAtAsk(qty, amount, t.ask);
    } else {
      assert filled.price == t.bid;
    }
  }

  lemma ExecuteCovers(w: Wallet, floor: Wallet, o: Order, amount: real)
    requires Covers(w, floor, o.StartingAsset(), amount) && Cost(o) <= amount
    ensures Covers(Execute(w, o), floor, o.ResultingAsset(), Proceeds(o))
  {}

  /** Order k of the replay is affordable, and no holding is below its floor before or after it. */
  ghost predicate StepCovered(w: Wallet, floor: Wallet, orders: Path, k: nat)
    requires k < |orders|
  {
    && Cost(orders[k])
       <= Holding(Replay(w, orders, k), orders[k].StartingAsset()) - Holding(floor, orders[k].StartingAsset())
    && Covers(Replay(w, orders, k), floor, "", 0.0)
    && Covers(Replay(w, orders, k + 1), floor, "", 0.0)
  }

  lemma ReplayShift(w: Wallet, first: Order, tail: Path, k: nat)
    requires k <= |tail|
    ensures Replay(w, [first] + tail, k + 1) == Replay(Execute(w, first), tail, k)
  {}

  lemma StepShift(w: Wallet, floor: Wallet, first: Order, tail: Path, k: nat)
    requires k < |tail| && StepCovered(Execute(w, first), floor, tail, k)
    ensures StepCovered(w, floor, [first] + tail, k + 1)
  {}

  /** The replay of a filled order followed by an already covered tail. */
  lemma {:induction false} ReplayCons(w: Wallet, floor: Wallet, first: Order, tail: Path, amount: real, end: string,
      final: real)
    requires Covers(w, floor, first.StartingAsset(), amount) && Cost(first) <= amount && 0.0 <= amount
             && 0.0 <= Proceeds(first)
    requires forall k :: 0 <= k < |tail| ==> StepCovered(Execute(w, first), floor, tail, k)
    requires Covers(Replay(Execute(w, first), tail, |tail|), floor, end, final)
    ensures forall k :: 0 <= k < |tail| + 1 ==> StepCovered(w, floor, [first] + tail, k)
    ensures Covers(Replay(w, [first] + tail, |tail| + 1), floor, end, final)
  {
    ExecuteCovers(w, floor, first, amount);
    hide Cost, Proceeds, Execute;
    ReplayShift(w, first, tail, |tail|);
    ReplayShift(w, first, tail, 0);
    forall k | 0 <= k < |tail| + 1 ensures StepCovered(w, floor, [first] + tail, k) {
      if k == 0 {
        assert ([first] + tail)[0] == first;
      } else {
        StepShift(w, floor, first, tail, k - 1);
      }
    }
  }

  /** The orders written by an evaluation that ran to the end can be replayed on any wallet that holds the evaluated
      amount above the floor, and bring the final amount above the floor. */
  lemma {:induction false} ReplayCovers(path: Path, book: Book, amount: real, w: Wallet, floor: Wallet)
    requires Tradable(path) && Linked(path) && path != [] && 0.0 <= amount
    requires EvalLegs(path, book, amount).final.Some?
    requires Covers(w, floor, path[0].StartingAsset(), amount)
    ensures var fold := EvalLegs(path, book, amount);
            && |fold.orders| == |path|
            && (forall k :: 0 <= k < |path| ==> StepCovered(w, floor, fold.orders, k))
            && Covers(Replay(w, fold.orders, |path|), floor, path[|path|-1].ResultingAsset(), fold.final.value)
  {
    hide LegAmount, LegQty, Cost, Proceeds, StepCovered;
    var o, rest := path[0], path[1..];
    var t := TickerOf(o, book);
    var out, filled := LegAmount(o, t, amount), Fill(o, t, amount);
    var tail := EvalLegs(rest, book, out);
    FilledLeg(o, t, amount);
    LegBounds(o, t, amount);
    ExecuteCovers(w, floor, filled, amount);
    if rest == [] {
      assert tail == Fold([], Some(out));
    } else {
      LinkedTail(path);
      ReplayCovers(rest, book, out, Execute(w, filled), floor);
      assert rest[|rest|-1] == path[|path|-1];
    }
    ReplayCons(w, floor, filled, tail.orders, amount, path[|path|-1].ResultingAsset(), tail.final.value);
  }

  /** The orders of a signal, replayed from the given wallet: never an overdraft, never a negative holding, never
      another asset below what it was, and at least the pnl gained in the starting asset. */
  ghost predicate Executable(signal: Signal, w: Wallet, start: string) {
    var orders, n := signal.orders, |signal.orders|;
    && (forall k :: 0 <= k < n ==> Cost(orders[k]) <= Holding(Replay(w, orders, k), orders[k].StartingAsset()))
    && (forall k, a: string :: 0 <= k <= n ==> 0.0 <= Holding(Replay(w, orders, k), a))
    && (forall k, a: string :: 0 <= k <= n && a != start ==> Holding(w, a) <= Holding(Replay(w, orders, k), a))
    && Holding(w, start) + signal.pnl <= Holding(Replay(w, orders, n), start)
  }

  /** Every signal can be executed on any wallet that holds the evaluated balance, for paths of any length. */
  lemma {:induction false} SignalIsExecutable(path: Path, book: Book, balance: real, w: Wallet)
    requires Closed(path) && Tradable(path) && 0.0 <= balance
    requires EvaluatePath(path, book, balance).signal.Some?
    requires balance <= Holding(w, path[0].StartingAsset())
    requires forall a: string :: 0.0 <= Holding(w, a)
    ensures Executable(EvaluatePath(path, book, balance).signal.value, w, path[0].StartingAsset())
  {
    var start, signal := path[0].StartingAsset(), EvaluatePath(path, book, balance).signal.value;
    var orders, n := signal.orders, |path|;
    var floor := Credit(w, start, -balance);
    assert Covers(w, floor, start, balance);
    ReplayCovers(path, book, balance, w, floor);
    hide EvalLegs, Replay, Cost, Describe, Tradable, Closed, StepCovered;
    FloorHolds(w, floor, orders);
    forall k, a: string | 0 <= k <= n
      ensures 0.0 <= Holding(Replay(w, orders, k), a)
      ensures a != start ==> Holding(w, a) <= Holding(Replay(w, orders, k), a)
    {
      assert Covers(Replay(w, orders, k), floor, "", 0.0);
      assert Holding(floor, a) == if a == start then Holding(w, a) - balance else Holding(w, a);
    }
  }

  lemma {:induction false} FloorHolds(w: Wallet, floor: Wallet, orders: Path)
    requires orders != [] && forall k :: 0 <= k < |orders| ==> StepCovered(w, floor, orders, k)
    requires forall a: string :: 0.0 <= Holding(floor, a)
    ensures forall k :: 0 <= k <= |orders| ==> Covers(Replay(w, orders, k), floor, "", 0.0)
    ensures forall k :: 0 <= k < |orders| ==>
              Cost(orders[k]) <= Holding(Replay(w, orders, k), orders[k].StartingAsset())
  {
    hide Replay, Cost;
    forall k | 0 <= k <= |orders| ensures Covers(Replay(w, orders, k), floor, "", 0.0) {
      assert StepCovered(w, floor, orders, if k < |orders| then k else k - 1);
    }
    forall k | 0 <= k < |orders| ensures Cost(orders[k]) <= Holding(Replay(w, orders, k), orders[k].StartingAsset()) {
      assert StepCovered(w, floor, orders, k);
      assert 0.0 <= Holding(floor, orders[k].StartingAsset());
    }
  }

  /** Every order of a signal is a market order at the quoted price, with a positive size; the exchange's lot filters,
      minimum included, accept that size exactly when the amount arriving at its leg fits them, and the program's own
      validation accepts it exactly when the maximum does not cut it or is on the grid. */
  lemma {:induction false} FilledSizes(path: Path, book: Book, amount: real)
    requires Tradable(path) && 0.0 <= amount
    requires EvalLegs(path, book, amount).final.Some? && EvalLegs(path, book, amount).final.value > 0.0
    ensures |EvalLegs(path, book, amount).orders| == |path|
    ensures forall k :: 0 <= k < |path| ==>
              && Quoted(path[..k], book) && path[k].symbol.name in book
              && SizedFor(EvalLegs(path, book, amount).orders[k], path[k], book, AmountBefore(path, book, amount, k))
  {
    hide FitsLots, FitsBounds, NotCut, SymbolFilter.StepsAgree, SymbolFilter.MeetsLotFilters,
        SymbolFilter.ValidateQuantity;
    if path != [] {
      var o := path[0];
      var t := book[o.symbol.name];
      var out := LegAmount(o, t, amount);
      var rest := EvalLegs(path[1..], book, out);
      LegBounds(o, t, amount);
      FilledSizes(path[1..], book, out);
      FirstSize(o, t, amount);
      assert out != 0.0;
      forall k | 0 <= k < |path|
        ensures Quoted(path[..k], book) && path[k].symbol.name in book
        ensures SizedFor(EvalLegs(path, book, amount).orders[k], path[k], book, AmountBefore(path, book, amount, k))
      {
        if k > 0 {
          QuotedCons(path, book, k);
          assert EvalLegs(path, book, amount).orders[k] == rest.orders[k-1] && path[k] == path[1..][k-1];
        }
      }
    }
  }

  /** The maximum does not cut the rounded quantity, or is itself a whole number of lots. */
  ghost predicate NotCut(f: SymbolFilter, need: real) {
    Within(RoundToNearest(need, f.Step(), false), f.MaxQty()) || BoundOnGrid(f.MaxQty(), f.Step())
  }

  /** The filled order o for a leg at which this amount arrives. */
  ghost predicate SizedFor(filled: Order, o: Order, book: Book, amount: real)
    requires o.symbol.name in book
  {
    var t, f := TickerOf(o, book), o.symbol.filter;
    && filled.symbol == o.symbol && filled.way == o.way && filled.kind == MARKET
    && filled.price == (if o.way == BUY then t.ask else t.bid)
    && 0.0 < filled.qty <= Need(o, t, amount)
    && (f.MeetsLotFilters(filled.qty) <==> FitsLots(f, Need(o, t, amount)))
    && (f.StepsAgree() ==> (f.MeetsLotFilters(filled.qty) <==> FitsBounds(f, Need(o, t, amount))))
    && (f.ValidateQuantity(filled.qty) <==> NotCut(f, Need(o, t, amount)))
  }

  lemma FirstSize(o: Order, t: Ticker, amount: real)
    requires o.way != HOLD && o.symbol.filter.WellFormed() && 0.0 <= amount && LegAmount(o, t, amount) != 0.0
    ensures 0.0 < LegQty(o, t, amount) <= Need(o, t, amount)
    ensures o.symbol.filter.MeetsLotFilters(LegQty(o, t, amount)) <==> FitsLots(o.symbol.filter, Need(o, t, amount))
    ensures o.symbol.filter.StepsAgree() ==>
              (o.symbol.filter.MeetsLotFilters(LegQty(o, t, amount)) <==>
                  FitsBounds(o.symbol.filter, Need(o, t, amount)))
    ensures o.symbol.filter.ValidateQuantity(LegQty(o, t, amount)) <==> NotCut(o.symbol.filter, Need(o, t, amount))
  {
    hide RoundToNearest, Clamp, FitsLots, FitsBounds, SymbolFilter.StepsAgree, SymbolFilter.MeetsLotFilters;
    LegQtyBounds(o, t, amount);
    LegAmountIs(o, t, amount);
    RoundQtyMeetsFiltersIff(o.symbol.filter, Need(o, t, amount));
    RoundQtyAcceptedIff(o.symbol.filter, Need(o, t, amount));
  }
}
