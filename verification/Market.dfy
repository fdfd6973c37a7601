/** Symbols, orders, book tickers and signals. */
module Market {
  import opened SymbolFilters

  datatype Way = BUY | SELL | HOLD

  datatype OrderType = MARKET | LIMIT

  datatype Symbol = Symbol(base: string, quote: string, name: string, filter: SymbolFilter) {
    /** Symbol equality ignores the name and the filter. */
    predicate Same(other: Symbol) {
      base == other.base && quote == other.quote
    }
  }

  datatype Order = Order(symbol: Symbol, way: Way, kind: OrderType, qty: real, price: real) {
    function StartingAsset(): string {
      if way == BUY then symbol.quote else symbol.base
    }

    function ResultingAsset(): string {
      if way == BUY then symbol.base else symbol.quote
    }

    function ToStr(): string {
      (if way == BUY then "BUY" else "SELL") + "@" + symbol.name
    }
  }

  /** An order as the path search creates it: a market order with no size and no price yet. */
  function NewOrder(symbol: Symbol, way: Way): Order {
    Order(symbol, way, MARKET, 0.0, 0.0)
  }

  type Path = seq<Order>

  /** A frame, with the time at which it was made of the received payload. */
  datatype BookTicker = BookTicker(symbol: string, timestamp: int, bid: real, bidQty: real, ask: real, askQty: real)

  /** Quoted prices: the evaluation divides by the ask. */
  type Ticker = t: BookTicker | 0.0 <= t.bid && 0.0 < t.ask witness BookTicker("", 0, 0.0, 0.0, 1.0, 0.0)

  /** marketData_: the last ticker received for each symbol name. */
  type Book = map<string, Ticker>

  datatype Signal = Signal(orders: Path, description: string, pnl: real)

  /** The path description is folded from the left over the orders. */
  function DescribeFrom(acc: string, path: Path): string
    decreases path
  {
    if path == [] then acc
    else DescribeFrom(if acc == "" then path[0].ToStr() else acc + " " + path[0].ToStr(), path[1..])
  }

  function Describe(path: Path): string {
    DescribeFrom("", path)
  }

  lemma {:induction false} DescribeOneMore(acc: string, p: Path, o: Order)
    ensures var before := DescribeFrom(acc, p);
            DescribeFrom(acc, p + [o]) == (if before == "" then o.ToStr() else before + " " + o.ToStr())
    ensures DescribeFrom(acc, p) != "" <==> acc != "" || p != []
    decreases p
  {
    if p == [] {
      assert [o][1..] == [];
    } else {
      assert (p + [o])[0] == p[0] && (p + [o])[1..] == p[1..] + [o];
      DescribeOneMore(if acc == "" then p[0].ToStr() else acc + " " + p[0].ToStr(), p[1..], o);
    }
  }

  /** The description lists the orders, way and symbol name joined by @, with one space between two of them. */
  lemma {:induction false} DescribeAppends(p: Path, o: Order)
    requires o.way != HOLD
    ensures Describe([]) == ""
    ensures Describe(p + [o])
            == (if p == [] then "" else Describe(p) + " ") + (if o.way == BUY then "BUY@" else "SELL@") + o.symbol.name
  {
    DescribeOneMore("", p, o);
    assert "BUY" + "@" == "BUY@" && "SELL" + "@" == "SELL@";
    var way := if o.way == BUY then "BUY" else "SELL";
    assert o.ToStr() == way + "@" + o.symbol.name;
    if p != [] {
      assert Describe(p) + " " + (way + "@" + o.symbol.name) == Describe(p) + " " + (way + "@") + o.symbol.name;
    }
  }
}
