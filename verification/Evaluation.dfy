/** The evaluation of one path: a balance folded through its orders, with rounding to the lot grid and a fee on each
    leg. */
module Evaluation {
  import opened Wrappers
  import opened Reals
  import opened SymbolFilters
  import opened Market

  const FEE: real := 0.1
  const RISK: real := 1.0

  /** What is left of an amount after the fee. */
  const KEEP: real := 1.0 - FEE / 100.0

  /** The quantity asked from the lot grid: the amount itself to sell, what it buys at the ask to buy. */
  function Need(o: Order, t: Ticker, amount: real): real {
    if o.way == BUY then amount / t.ask else amount
  }

  function LegQty(o: Order, t: Ticker, amount: real): real {
    if o.way == HOLD then 0.0 else o.symbol.filter.RoundQty(Need(o, t, amount))
  }

  function LegPrice(o: Order, t: Ticker): real {
    match o.way case SELL => t.bid case BUY => t.ask case HOLD => 0.0
  }

  /** The amount held after the leg, fee included. */
  function LegAmount(o: Order, t: Ticker, amount: real): real {
    (match o.way
     case SELL => LegQty(o, t, amount) * t.bid
     case BUY => LegQty(o, t, amount)
     case HOLD => amount) * KEEP
  }

  /** The order with the price and size the leg writes into it. */
  function Fill(o: Order, t: Ticker, amount: real): Order {
    o.(price := LegPrice(o, t), qty := LegQty(o, t, amount), kind := MARKET)
  }

  /** The orders after the evaluation, and the final amount unless a leg stopped it. */
  datatype Fold = Fold(orders: Path, final: Option<real>)

  /** The loop over the orders: it stops on a zero amount, then on a symbol without market data. */
  function EvalLegs(path: Path, book: Book, amount: real): Fold {
    if path == [] then Fold([], Some(amount))
    else if amount == 0.0 || path[0].symbol.name !in book then Fold(path, None)
    else
      var t := book[path[0].symbol.name];
      var rest := EvalLegs(path[1..], book, LegAmount(path[0], t, amount));
      Fold([Fill(path[0], t, amount)] + rest.orders, rest.final)
  }

  datatype Evaluated = Evaluated(orders: Path, signal: Option<Signal>)

  /** A signal if more came back than was sent. */
  function Conclude(fold: Fold, description: string, sent: real): Evaluated {
    if fold.final.Some? && fold.final.value - sent > 0.0
    then Evaluated(fold.orders, Some(Signal(fold.orders, description, fold.final.value - sent)))
    else Evaluated(fold.orders, None)
  }

  function EvaluatePath(path: Path, book: Book, balance: real): Evaluated {
    Conclude(EvalLegs(path, book, RISK * balance), Describe(path), RISK * balance)
  }

  // ----- The amount alone -----

  predicate Quoted(path: Path, book: Book) {
    forall i :: 0 <= i < |path| ==> path[i].symbol.name in book
  }

  /** Orders the search can produce, on symbols with the filters an exchange publishes. */
  ghost predicate Tradable(path: Path) {
    forall i :: 0 <= i < |path| ==> path[i].way != HOLD && path[i].symbol.filter.WellFormed()
  }

  function TickerOf(o: Order, book: Book): Ticker
    requires o.symbol.name in book
  {
    book[o.symbol.name]
  }

  /** The amount that reaches the end of the path when no leg is skipped. */
  function Flow(path: Path, book: Book, amount: real): real
    requires Quoted(path, book)
  {
    if path == [] then amount else Flow(path[1..], book, LegAmount(path[0], TickerOf(path[0], book), amount))
  }

  /** What a leg returns, per unit sent in, at the quoted price and before the fee. */
  function Rate(o: Order, t: Ticker): real {
    if o.way == BUY then 1.0 / t.ask else t.bid
  }

  /** What a leg returns per unit of its rounded quantity, before the fee. */
  function UnitValue(o: Order, t: Ticker): real {
    if o.way == BUY then 1.0 else t.bid
  }

  lemma LegAmountIs(o: Order, t: Ticker, amount: real)
    requires o.way != HOLD
    ensures LegAmount(o, t, amount) == LegQty(o, t, amount) * UnitValue(o, t) * KEEP
    ensures 0.0 <= Rate(o, t) && 0.0 <= UnitValue(o, t)
    ensures Need(o, t, amount) * UnitValue(o, t) == amount * Rate(o, t)
    ensures 0.0 <= amount ==> 0.0 <= Need(o, t, amount)
    ensures Need(o, t, 0.0) == 0.0
  {
    hide SymbolFilter.RoundQty;
    if o.way == BUY {
      DivMul(amount, t.ask);
      DivMono(0.0, 1.0, t.ask, t.ask);
      if 0.0 <= amount {
        DivMono(0.0, amount, t.ask, t.ask);
      }
    }
  }

  /** What a leg brings before the fee: the rounded amount at the bid when selling, the rounded quantity that the amount
      buys at the ask when buying, the amount itself when holding. */
  function Traded(o: Order, t: Ticker, amount: real): real {
    match o.way
    case SELL => o.symbol.filter.RoundQty(amount) * t.bid
    case BUY => o.symbol.filter.RoundQty(amount / t.ask)
    case HOLD => amount
  }

  /** The fee of a leg is a tenth of a percent of what it brings. */
  lemma LegPaysFee(o: Order, t: Ticker, amount: real)
    ensures 1000.0 * LegAmount(o, t, amount) == 999.0 * Traded(o, t, amount)
  {
    hide SymbolFilter.RoundQty;
  }

  lemma LegQtyBounds(o: Order, t: Ticker, amount: real)
    requires o.way != HOLD && o.symbol.filter.WellFormed() && 0.0 <= amount
    ensures 0.0 <= LegQty(o, t, amount) <= Need(o, t, amount)
    ensures Within(RoundToNearest(Need(o, t, amount), o.symbol.filter.Step(), false), o.symbol.filter.MaxQty())
            ==> Need(o, t, amount) - o.symbol.filter.Step() <= LegQty(o, t, amount)
    ensures LegQty(o, t, 0.0) == 0.0
  {
    hide SymbolFilter.RoundQty, SymbolFilter.Step, SymbolFilter.MaxQty, RoundToNearest;
    LegAmountIs(o, t, amount);
    RoundQtyBounds(o.symbol.filter, Need(o, t, amount));
  }

  lemma BoundedAmount(qty: real, unit: real, need: real, amount: real, rate: real)
    requires 0.0 <= qty <= need && 0.0 <= unit && need * unit == amount * rate
    ensures 0.0 <= qty * unit * KEEP <= amount * rate * KEEP
  {
    MulMono(qty, need, unit);
    MulNonNeg(qty, unit);
    MulMono(qty * unit, amount * rate, KEEP);
  }

  /** A leg returns at most the amount at the quoted rate after the fee, and nothing for nothing. */
  lemma LegBounds(o: Order, t: Ticker, amount: real)
    requires o.way != HOLD && o.symbol.filter.WellFormed() && 0.0 <= amount
    ensures 0.0 <= LegAmount(o, t, amount) <= amount * Rate(o, t) * KEEP
    ensures LegAmount(o, t, 0.0) == 0.0
  {
    hide LegAmount, LegQty, Need, Rate, UnitValue, RoundToNearest, SymbolFilter.Step, SymbolFilter.MaxQty,
        SymbolFilter.WellFormed;
    LegAmountIs(o, t, amount);
    LegQtyBounds(o, t, amount);
    BoundedAmount(LegQty(o, t, amount), UnitValue(o, t), Need(o, t, amount), amount, Rate(o, t));
    LegAmountIs(o, t, 0.0);
  }

  lemma FlowOfZero(path: Path, book: Book)
    requires Quoted(path, book) && Tradable(path)
    ensures Flow(path, book, 0.0) == 0.0
  {}

  /** A stopped evaluation is one that meets an unquoted symbol or carries nothing; any other ends with the flow. */
  lemma {:induction false} EvalIsFlow(path: Path, book: Book, amount: real)
    requires Tradable(path) && 0.0 <= amount
    ensures !Quoted(path, book) ==> EvalLegs(path, book, amount).final.None?
    ensures Quoted(path, book) ==>
            match EvalLegs(path, book, amount).final
            case Some(x) => x == Flow(path, book, amount)
            case None => Flow(path, book, amount) == 0.0
  {
    if path != [] {
      if path[0].symbol.name in book {
        assert Quoted(path, book) <==> Quoted(path[1..], book) by {
          if Quoted(path[1..], book) {
            forall i | 0 <= i < |path| ensures path[i].symbol.name in book {
              assert i > 0 ==> path[i] == path[1..][i-1];
            }
          }
        }
        var t := TickerOf(path[0], book);
        LegBounds(path[0], t, amount);
        EvalIsFlow(path[1..], book, LegAmount(path[0], t, amount));
      }
      if amount == 0.0 && Quoted(path, book) {
        FlowOfZero(path, book);
      }
    }
  }

  /** A path signals exactly when every symbol is quoted and more comes back than was sent, and the pnl is the
      difference. */
  lemma {:induction false} SignalIff(path: Path, book: Book, balance: real)
    requires Tradable(path) && 0.0 <= balance
    ensures var signal := EvaluatePath(path, book, balance).signal;
            && (signal.Some? <==> Quoted(path, book) && balance < Flow(path, book, balance))
            && (signal.Some? ==> signal.value.pnl == Flow(path, book, balance) - balance)
            && (signal.Some? ==> signal.value.description == Describe(path)
                                 && signal.value.orders == EvalLegs(path, book, balance).orders)
  {
    EvalIsFlow(path, book, balance);
  }

  // ----- Where an evaluation stops, and what it writes -----

  /** How many legs an evaluation completes. */
  function LegsDone(path: Path, book: Book, amount: real): (n: nat)
    ensures n <= |path|
  {
    if path == [] || amount == 0.0 || path[0].symbol.name !in book then 0
    else 1 + LegsDone(path[1..], book, LegAmount(path[0], TickerOf(path[0], book), amount))
  }

  /** The amount that arrives at leg k. */
  function AmountBefore(path: Path, book: Book, amount: real, k: nat): real
    requires k <= |path| && Quoted(path[..k], book)
    decreases k
  {
    if k == 0 then amount
    else
      assert path[..k][0] == path[0] && path[..k][1..] == path[1..][..k-1];
      AmountBefore(path[1..], book, LegAmount(path[0], TickerOf(path[0], book), amount), k - 1)
  }

  /** Leg k is completed: its symbol is quoted, something arrives, and the order gets its price and size from that. */
  ghost predicate Completed(path: Path, book: Book, amount: real, k: nat, order: Order)
    requires k < |path|
  {
    && Quoted(path[..k], book) && path[k].symbol.name in book
    && AmountBefore(path, book, amount, k) != 0.0
    && order == Fill(path[k], TickerOf(path[k], book), AmountBefore(path, book, amount, k))
  }

  /** The evaluation completes legs up to the first one that has no quote or nothing to send, writes exactly those
      orders, leaves the others as they were, and has a result only if it completes them all. */
  lemma {:induction false} EvalStopsAt(path: Path, book: Book, amount: real)
    ensures var fold, n := EvalLegs(path, book, amount), LegsDone(path, book, amount);
            && |fold.orders| == |path| && Quoted(path[..n], book)
            && (forall k :: 0 <= k < n ==> Completed(path, book, amount, k, fold.orders[k]))
            && (forall k :: n <= k < |path| ==> fold.orders[k] == path[k])
            && (n < |path| ==> path[n].symbol.name !in book || AmountBefore(path, book, amount, n) == 0.0)
            && fold.final == if n == |path| then Some(AmountBefore(path, book, amount, n)) else None
  {
    hide LegAmount, Fill;
    if path != [] && amount != 0.0 && path[0].symbol.name in book {
      var out, rest := LegAmount(path[0], TickerOf(path[0], book), amount), path[1..];
      EvalStopsAt(rest, book, out);
      var fold, tail, n := EvalLegs(path, book, amount), EvalLegs(rest, book, out), LegsDone(path, book, amount);
      QuotedCons(path, book, n);
      forall k | 0 <= k < n ensures Completed(path, book, amount, k, fold.orders[k]) {
        QuotedCons(path, book, k);
        if k > 0 {
          assert Completed(rest, book, out, k - 1, tail.orders[k-1]);
        }
      }
    }
  }

  lemma QuotedCons(path: Path, book: Book, k: nat)
    requires k <= |path| && path != [] && path[0].symbol.name in book
    requires k > 0 ==> Quoted(path[1..][..k-1], book)
    ensures Quoted(path[..k], book)
  {
    forall i | 0 <= i < k ensures path[..k][i].symbol.name in book {
      assert i > 0 ==> path[i] == path[1..][..k-1][i-1];
    }
  }

  // ----- Monotonicity -----

  /** Every quote on the path is at least as good in the second book: bids not lower, asks not higher. */
  ghost predicate NoWorse(path: Path, worse: Book, better: Book) {
    forall i :: 0 <= i < |path| ==>
      var name := path[i].symbol.name;
      name in worse && name in better && worse[name].bid <= better[name].bid && better[name].ask <= worse[name].ask
  }

  lemma LegMonotone(o: Order, s: Ticker, t: Ticker, x: real, y: real)
    requires o.way != HOLD && o.symbol.filter.WellFormed()
    requires 0.0 <= x <= y && s.bid <= t.bid && t.ask <= s.ask
    ensures LegAmount(o, s, x) <= LegAmount(o, t, y)
  {
    hide SymbolFilter.RoundQty, LegAmount;
    LegAmountIs(o, s, x);
    LegAmountIs(o, t, y);
    LegQtyBounds(o, s, x);
    if o.way == BUY {
      DivMono(x, y, s.ask, t.ask);
    }
    RoundQtyMonotone(o.symbol.filter, Need(o, s, x), Need(o, t, y));
    MulMono2(LegQty(o, s, x), LegQty(o, t, y), UnitValue(o, s), UnitValue(o, t));
  }

  /** More balance, higher bids and lower asks never give less, through every rounding, clamp and fee. */
  lemma {:induction false} FlowMonotone(path: Path, worse: Book, better: Book, x: real, y: real)
    requires Tradable(path) && NoWorse(path, worse, better) && 0.0 <= x <= y
    ensures Quoted(path, worse) && Quoted(path, better) && Flow(path, worse, x) <= Flow(path, better, y)
  {
    if path != [] {
      var s, t := TickerOf(path[0], worse), TickerOf(path[0], better);
      LegBounds(path[0], s, x);
      LegMonotone(path[0], s, t, x, y);
      FlowMonotone(path[1..], worse, better, LegAmount(path[0], s, x), LegAmount(path[0], t, y));
    }
  }

  /** A signal survives every improvement of the quotes on its path, with at least the same pnl. */
  lemma {:induction false} SignalPersists(path: Path, worse: Book, better: Book, balance: real)
    requires Tradable(path) && NoWorse(path, worse, better) && 0.0 <= balance
    requires EvaluatePath(path, worse, balance).signal.Some?
    ensures EvaluatePath(path, better, balance).signal.Some?
    ensures EvaluatePath(path, worse, balance).signal.value.pnl <= EvaluatePath(path, better, balance).signal.value.pnl
  {
    SignalIff(path, worse, balance);
    SignalIff(path, better, balance);
    FlowMonotone(path, worse, better, balance, balance);
  }

  // ----- Bounds on the result -----

  /** The product over the legs of rate and fee. */
  function Product(path: Path, book: Book): real
    requires Quoted(path, book)
  {
    if path == [] then 1.0 else Rate(path[0], TickerOf(path[0], book)) * KEEP * Product(path[1..], book)
  }

  /** What rounding can cost: less than one lot per leg, carried through the fee of its leg and all later legs. */
  function RoundingLoss(path: Path, book: Book): real
    requires Quoted(path, book)
  {
    if path == [] then 0.0
    else
      var t := TickerOf(path[0], book);
      path[0].symbol.filter.Step() * UnitValue(path[0], t) * KEEP * Product(path[1..], book)
          + RoundingLoss(path[1..], book)
  }

  /** No maximum quantity cuts a leg. */
  ghost predicate NoClamp(path: Path, book: Book, amount: real)
    requires Quoted(path, book)
  {
    path != [] ==>
      var o, t := path[0], TickerOf(path[0], book);
      && Within(RoundToNearest(Need(o, t, amount), o.symbol.filter.Step(), false), o.symbol.filter.MaxQty())
      && NoClamp(path[1..], book, LegAmount(o, t, amount))
  }

  lemma ProductNonNegative(path: Path, book: Book)
    requires Quoted(path, book)
    ensures 0.0 <= Product(path, book)
  {}

  /** Never more than the balance times the product of the rates and fees. */
  lemma {:induction false} FlowAtMostProduct(path: Path, book: Book, amount: real)
    requires Quoted(path, book) && Tradable(path) && 0.0 <= amount
    ensures Flow(path, book, amount) <= amount * Product(path, book)
  {
    hide LegAmount, Rate;
    if path != [] {
      var o, t := path[0], TickerOf(path[0], book);
      LegBounds(o, t, amount);
      FlowAtMostProduct(path[1..], book, LegAmount(o, t, amount));
      ProductNonNegative(path[1..], book);
      UpperStep(amount, Rate(o, t), Product(path[1..], book), LegAmount(o, t, amount));
    }
  }

  lemma UpperStep(amount: real, rate: real, rest: real, out: real)
    requires 0.0 <= rest && out <= amount * rate * KEEP
    ensures out * rest <= amount * (rate * KEEP * rest)
  {}

  /** And, unless a maximum cuts a leg, never less than that product minus the rounding losses. */
  lemma {:induction false} FlowAtLeastProduct(path: Path, book: Book, amount: real)
    requires Quoted(path, book) && Tradable(path) && 0.0 <= amount && NoClamp(path, book, amount)
    ensures amount * Product(path, book) - RoundingLoss(path, book) <= Flow(path, book, amount)
  {
    hide LegAmount, LegQty, Rate, UnitValue, Need, SymbolFilter.RoundQty, SymbolFilter.Step, SymbolFilter.MaxQty,
        RoundToNearest;
    if path != [] {
      var o, t := path[0], TickerOf(path[0], book);
      var step, rest := o.symbol.filter.Step(), Product(path[1..], book);
      LegBounds(o, t, amount);
      LegAmountIs(o, t, amount);
      LegQtyBounds(o, t, amount);
      FlowAtLeastProduct(path[1..], book, LegAmount(o, t, amount));
      ProductNonNegative(path[1..], book);
      LowerStep(amount, Rate(o, t), UnitValue(o, t), Need(o, t, amount), LegQty(o, t, amount), step, rest);
    }
  }

  lemma LowerStep(amount: real, rate: real, unit: real, need: real, qty: real, step: real, rest: real)
    requires 0.0 <= rest && 0.0 <= unit && need * unit == amount * rate && need - step <= qty
    ensures amount * (rate * KEEP * rest) - step * unit * KEEP * rest <= (qty * unit * KEEP) * rest
  {}

  /** A signal means that the product of the rates and fees exceeds 1. */
  lemma {:induction false} SignalNeedsProduct(path: Path, book: Book, balance: real)
    requires Tradable(path) && 0.0 <= balance && EvaluatePath(path, book, balance).signal.Some?
    ensures Quoted(path, book) && 1.0 < Product(path, book)
    ensures EvaluatePath(path, book, balance).signal.value.pnl <= balance * (Product(path, book) - 1.0)
  {
    SignalIff(path, book, balance);
    FlowAtMostProduct(path, book, balance);
    if Product(path, book) <= 1.0 {
      MulMono(Product(path, book), 1.0, balance);
    }
  }

  /** Conversely a product that beats the rounding losses signals, unless a maximum cuts a leg. */
  lemma {:induction false} ProductForcesSignal(path: Path, book: Book, balance: real)
    requires Tradable(path) && 0.0 <= balance && Quoted(path, book) && NoClamp(path, book, balance)
    requires RoundingLoss(path, book) < balance * (Product(path, book) - 1.0)
    ensures EvaluatePath(path, book, balance).signal.Some?
  {
    FlowAtLeastProduct(path, book, balance);
    SignalIff(path, book, balance);
  }
}
