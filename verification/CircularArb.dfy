/** The strategy object: incremental evaluation of the arbitrage paths touched by each market data update. */
module CircularArbitrage {
  import opened Wrappers
  import opened Market
  import opened PathSearch
  import opened Evaluation

  const ARBITRAGE_DEPTH := 3

  predicate Touches(path: Path, name: string) {
    exists i :: 0 <= i < |path| && path[i].symbol.name == name
  }

  function BalanceOf(balance: map<string, real>, asset: string): real {
    if asset in balance then balance[asset] else 0.0
  }

  /** Reading a missing key of a std::map with [] inserts the default. */
  function WithDefault(balance: map<string, real>, asset: string): map<string, real> {
    if asset in balance then balance else balance[asset := 0.0]
  }

  function StartOf(path: Path): string {
    if path == [] then "" else path[0].StartingAsset()
  }

  /** The symbols and ways of a path, without the prices and sizes written by evaluations. */
  function Template(path: Path): (t: Path)
    ensures |t| == |path| && forall i :: 0 <= i < |t| ==> t[i] == NewOrder(path[i].symbol, path[i].way)
  {
    seq(|path|, i requires 0 <= i < |path| => NewOrder(path[i].symbol, path[i].way))
  }

  function Templates(paths: seq<Path>): (ts: seq<Path>)
    ensures |ts| == |paths| && forall i :: 0 <= i < |ts| ==> ts[i] == Template(paths[i])
  {
    seq(|paths|, i requires 0 <= i < |paths| => Template(paths[i]))
  }

  /** startingAsset_, stratPaths_, marketData_ and balance_ as values. */
  datatype Strategy = Strategy(start: string, paths: seq<Path>, book: Book, balance: map<string, real>)

  /** What an update makes of one path: a fresh evaluation if the path contains the symbol, nothing otherwise. */
  function Outcome(path: Path, book: Book, balance: map<string, real>, name: string): Evaluated {
    if Touches(path, name) then EvaluatePath(path, book, BalanceOf(balance, StartOf(path))) else Evaluated(path, None)
  }

  function Outcomes(paths: seq<Path>, book: Book, balance: map<string, real>, name: string): (r: seq<Evaluated>)
    ensures |r| == |paths| && forall i :: 0 <= i < |r| ==> r[i] == Outcome(paths[i], book, balance, name)
  {
    seq(|paths|, i requires 0 <= i < |paths| => Outcome(paths[i], book, balance, name))
  }

  function OrdersOf(rs: seq<Evaluated>): (r: seq<Path>)
    ensures |r| == |rs| && forall i :: 0 <= i < |r| ==> r[i] == rs[i].orders
  {
    seq(|rs|, i requires 0 <= i < |rs| => rs[i].orders)
  }

  function SignalsOf(rs: seq<Evaluated>): (r: seq<Option<Signal>>)
    ensures |r| == |rs| && forall i :: 0 <= i < |r| ==> r[i] == rs[i].signal
  {
    seq(|rs|, i requires 0 <= i < |rs| => rs[i].signal)
  }

  function Defaults(balance: map<string, real>, paths: seq<Path>, name: string): map<string, real> {
    if paths == [] then balance
    else
      var last := paths[|paths|-1];
      var before := Defaults(balance, paths[..|paths|-1], name);
      if Touches(last, name) then WithDefault(before, StartOf(last)) else before
  }

  lemma DefaultsKeepBalances(balance: map<string, real>, paths: seq<Path>, name: string, asset: string)
    ensures BalanceOf(Defaults(balance, paths, name), asset) == BalanceOf(balance, asset)
  {}

  /** The index of the last signal with a positive pnl, or -1: maxPnl stays 0 throughout the loop. */
  function LastIndex(signals: seq<Option<Signal>>): int {
    if signals == [] then -1
    else if signals[|signals|-1].Some? && signals[|signals|-1].value.pnl > 0.0 then |signals| - 1
    else LastIndex(signals[..|signals|-1])
  }

  function SignalAt(signals: seq<Option<Signal>>, k: int): Option<Signal> {
    if 0 <= k < |signals| then signals[k] else None
  }

  /** The signal the loop ends with. */
  function Selected(signals: seq<Option<Signal>>): Option<Signal> {
    SignalAt(signals, LastIndex(signals))
  }

  lemma LastIndexInRange(signals: seq<Option<Signal>>)
    ensures -1 <= LastIndex(signals) < |signals|
  {}

  lemma SelectedNone()
    ensures Selected([]) == None
  {}

  lemma TakeOneMore<T>(s: seq<T>, p: nat)
    requires p < |s|
    ensures s[..p+1] == s[..p] + [s[p]]
  {}

  lemma DefaultsStep(balance: map<string, real>, paths: seq<Path>, next: Path, name: string)
    ensures Defaults(balance, paths + [next], name)
            == if Touches(next, name) then WithDefault(Defaults(balance, paths, name), StartOf(next))
               else Defaults(balance, paths, name)
  {}

  lemma {:induction false} SelectedStep(signals: seq<Option<Signal>>, next: Option<Signal>)
    ensures Selected(signals + [next]) == if next.Some? && next.value.pnl > 0.0 then next else Selected(signals)
  {
    assert (signals + [next])[..|signals|] == signals;
    LastIndexInRange(signals);
  }

  function NextBook(s: Strategy, data: Ticker): Book {
    s.book[data.symbol := data]
  }

  function StepOutcomes(s: Strategy, data: Ticker): seq<Evaluated> {
    Outcomes(s.paths, NextBook(s, data), s.balance, data.symbol)
  }

  /** The state after an update. */
  function Step(s: Strategy, data: Ticker): Strategy {
    Strategy(s.start, OrdersOf(StepOutcomes(s, data)), NextBook(s, data), Defaults(s.balance, s.paths, data.symbol))
  }

  /** The signal an update returns. */
  function StepSignal(s: Strategy, data: Ticker): Option<Signal> {
    Selected(SignalsOf(StepOutcomes(s, data)))
  }

  /** The paths held by the arrays, in order. */
  ghost function PathsIn(arrays: seq<array<Order>>): (r: seq<Path>)
    reads arrays
    ensures |r| == |arrays| && forall i :: 0 <= i < |r| ==> r[i] == arrays[i][..]
  {
    if arrays == [] then [] else PathsIn(arrays[..|arrays|-1]) + [arrays[|arrays|-1][..]]
  }

  ghost predicate Distinct(arrays: seq<array<Order>>) {
    forall i, j :: 0 <= i < j < |arrays| ==> arrays[i] != arrays[j]
  }

  class CircularArb {
    const startingAsset: string
    ghost const symbols: seq<Symbol>
    var stratPaths: seq<array<Order>>
    var marketData: Book
    var balance: map<string, real>

    /** The stored paths are separate arrays, and carry the symbols and ways of the enumerated paths. */
    ghost predicate Valid()
      reads this, stratPaths
    {
      && Distinct(stratPaths)
      && Templates(PathsIn(stratPaths)) == ArbitragePaths(symbols, startingAsset, ARBITRAGE_DEPTH)
    }

    ghost function State(): Strategy
      reads this, stratPaths
    {
      Strategy(startingAsset, PathsIn(stratPaths), marketData, balance)
    }

    constructor (symbolsList: seq<Symbol>, startingAsset: string, balances: map<string, real>, book: Book)
      ensures Valid() && fresh(stratPaths)
      ensures State()
              == Strategy(startingAsset, ArbitragePaths(symbolsList, startingAsset, ARBITRAGE_DEPTH), book, balances)
      ensures symbols == symbolsList
    {
      this.startingAsset := startingAsset;
      this.symbols := symbolsList;
      this.marketData := book;
      this.balance := balances;
      this.stratPaths := [];
      new;
      hide ArbitragePaths, IsCycle, Level, Template;
      var paths := ComputeArbitragePaths(symbolsList, startingAsset, ARBITRAGE_DEPTH);
      stratPaths := StorePaths(paths);
      TemplatesOfNew(paths, symbolsList, startingAsset);
    }

    /** One array per path. */
    static method StorePaths(paths: seq<Path>) returns (arrays: seq<array<Order>>)
      ensures Distinct(arrays) && fresh(arrays) && PathsIn(arrays) == paths
    {
      arrays := [];
      for k := 0 to |paths|
        invariant |arrays| == k && Distinct(arrays) && fresh(arrays)
        invariant forall i :: 0 <= i < k ==> arrays[i][..] == paths[i]
      {
        var a := new Order[|paths[k]|](i requires 0 <= i < |paths[k]| => paths[k][i]);
        assert a[..] == paths[k];
        arrays := arrays + [a];
      }
    }

    /** One leg: price and size of the order, and the amount it leaves after the fee. */
    static method EvaluateLeg(order: Order, ticker: Ticker, startingAssetQty: real)
      returns (filled: Order, resultingAssetQty: real)
      ensures filled == Fill(order, ticker, startingAssetQty)
              && resultingAssetQty == LegAmount(order, ticker, startingAssetQty)
    {
      var orderPrice, orderQty := 0.0, 0.0;
      resultingAssetQty := startingAssetQty;
      if order.way == SELL {
        orderQty := order.symbol.filter.RoundQty(startingAssetQty);
        resultingAssetQty := orderQty * ticker.bid;
        orderPrice := ticker.bid;
      }
      if order.way == BUY {
        orderQty := order.symbol.filter.RoundQty(startingAssetQty / ticker.ask);
        resultingAssetQty := orderQty;
        orderPrice := ticker.ask;
      }
      filled := order.(price := orderPrice, qty := orderQty, kind := MARKET);
      resultingAssetQty := resultingAssetQty * KEEP;
    }

    /** The loop over the orders of a path: writes price, size and type into each until a leg stops it. */
    method FoldPath(path: array<Order>, sent: real) returns (final: Option<real>)
      modifies path
      ensures Fold(path[..], final) == EvalLegs(old(path[..]), marketData, sent)
    {
      hide Fill, LegAmount;
      ghost var before := path[..];
      var startingAssetQty := 0.0;
      var resultingAssetQty := sent;
      var i := 0;
      while i < path.Length
        invariant 0 <= i <= path.Length && |before| == path.Length
        invariant path[i..] == before[i..]
        invariant EvalLegs(before, marketData, sent)
                  == Append(path[..i], EvalLegs(before[i..], marketData, resultingAssetQty))
      {
        startingAssetQty := resultingAssetQty;
        var order := path[i];
        assert before[i..][0] == order && before[i..][1..] == before[i+1..];
        if startingAssetQty == 0.0 || order.symbol.name !in marketData {
          assert path[..] == path[..i] + before[i..];
          return None;
        }
        var filled;
        filled, resultingAssetQty := EvaluateLeg(order, marketData[order.symbol.name], startingAssetQty);
        ghost var done := path[..i];
        path[i] := filled;
        AppendCons(done, path[i], EvalLegs(before[i+1..], marketData, resultingAssetQty));
        assert path[..i+1] == done + [path[i]];
        i := i + 1;
      }
      assert path[..path.Length] == path[..];
      final := Some(resultingAssetQty);
    }

    /** Evaluates one path against the current market data: a signal if the fold returns more than the balance sent. */
    method EvaluatePath(path: array<Order>) returns (signal: Option<Signal>)
      requires path.Length > 0
      modifies path, `balance
      ensures balance == WithDefault(old(balance), StartOf(old(path[..])))
      ensures Evaluated(path[..], signal)
              == Evaluation.EvaluatePath(old(path[..]), marketData, BalanceOf(old(balance), StartOf(old(path[..]))))
    {
      hide EvalLegs, Describe;
      var pathStartingAsset := path[0].StartingAsset();
      var pathDescription := Describe(path[..]);
      balance := WithDefault(balance, pathStartingAsset);
      var final := FoldPath(path, RISK * balance[pathStartingAsset]);
      if final.None? {
        return None;
      }
      var pnl := final.value - RISK * balance[pathStartingAsset];
      signal := if pnl > 0.0 then Some(Signal(path[..], pathDescription, pnl)) else None;
    }

    /** One iteration of the selection loop: evaluates the path if it contains the symbol, and keeps its signal if
        that beats maxPnl. */
    method Visit(path: array<Order>, name: string, maxPnl: real, chosen: Option<Signal>)
      returns (outSignal: Option<Signal>)
      requires path.Length > 0
      modifies path, `balance
      ensures var outcome := Outcome(old(path[..]), marketData, old(balance), name);
              && path[..] == outcome.orders
              && outSignal
                 == if outcome.signal.Some? && outcome.signal.value.pnl > maxPnl then outcome.signal else chosen
      ensures balance
              == if Touches(old(path[..]), name) then WithDefault(old(balance), StartOf(old(path[..])))
                 else old(balance)
    {
      hide Evaluation.EvaluatePath;
      outSignal := chosen;
      if Touches(path[..], name) {
        var sig := EvaluatePath(path);
        if sig.Some? && sig.value.pnl > maxPnl {
          outSignal := sig;
        }
      }
    }

    /** Stores the update, re-evaluates the paths through its symbol, and returns the last profitable one. */
    method OnMarketData(data: Ticker) returns (outSignal: Option<Signal>)
      requires Valid()
      modifies this, stratPaths
      ensures Valid() && stratPaths == old(stratPaths)
      ensures State() == Step(old(State()), data)
      ensures outSignal == StepSignal(old(State()), data)
    {
      ghost var s := State();
      StoredPathsNonEmpty(stratPaths, symbols, startingAsset);
      StepKeepsTemplates(s, data);
      hide ArbitragePaths, Outcome, Outcomes, Defaults, Selected;
      marketData := marketData[data.symbol := data];
      outSignal := VisitAll(data.symbol, s.paths, StepOutcomes(s, data));
      PathsAre(stratPaths, OrdersOf(StepOutcomes(s, data)));
    }

    /** The selection loop. */
    method VisitAll(name: string, ghost paths: seq<Path>, ghost rs: seq<Evaluated>) returns (outSignal: Option<Signal>)
      requires Distinct(stratPaths) && |paths| == |rs| == |stratPaths|
      requires forall i :: 0 <= i < |stratPaths| ==> stratPaths[i].Length > 0 && stratPaths[i][..] == paths[i]
      requires forall i :: 0 <= i < |stratPaths| ==> rs[i] == Outcome(paths[i], marketData, balance, name)
      modifies stratPaths, `balance
      ensures forall i :: 0 <= i < |stratPaths| ==> stratPaths[i][..] == rs[i].orders
      ensures outSignal == Selected(SignalsOf(rs)) && balance == Defaults(old(balance), paths, name)
    {
      ghost var signals := SignalsOf(rs);
      SelectedNone();
      assert Defaults(balance, [], name) == balance;
      hide Outcome, Selected, Touches, Defaults;
      var maxPnl := 0.0;
      outSignal := None;
      for p := 0 to |stratPaths|
        invariant forall j :: 0 <= j < p ==> stratPaths[j][..] == rs[j].orders
        invariant forall j :: p <= j < |stratPaths| ==> stratPaths[j][..] == paths[j]
        invariant balance == Defaults(old(balance), paths[..p], name)
        invariant outSignal == Selected(signals[..p])
      {
        TakeOneMore(paths, p);
        TakeOneMore(signals, p);
        DefaultsStep(old(balance), paths[..p], paths[p], name);
        SelectedStep(signals[..p], signals[p]);
        OutcomeOfBalance(paths[p], marketData, balance, old(balance), paths[..p], name);
        outSignal := Visit(stratPaths[p], name, maxPnl, outSignal);
      }
      assert paths[..|stratPaths|] == paths && signals[..|stratPaths|] == signals;
    }
  }

  lemma PathsAre(arrays: seq<array<Order>>, paths: seq<Path>)
    requires |arrays| == |paths| && forall i :: 0 <= i < |arrays| ==> arrays[i][..] == paths[i]
    ensures PathsIn(arrays) == paths
  {}

  /** Inserted defaults do not change what a path evaluates to. */
  lemma OutcomeOfBalance(path: Path, book: Book, balance: map<string, real>, balance0: map<string, real>,
      visited: seq<Path>, name: string)
    requires balance == Defaults(balance0, visited, name)
    ensures Outcome(path, book, balance, name) == Outcome(path, book, balance0, name)
  {
    hide Defaults, Evaluation.EvaluatePath;
    DefaultsKeepBalances(balance0, visited, name, StartOf(path));
  }

  function Append(done: Path, rest: Fold): Fold {
    Fold(done + rest.orders, rest.final)
  }

  lemma AppendCons(done: Path, o: Order, rest: Fold)
    ensures Append(done, Append([o], rest)) == Append(done + [o], rest)
  {}

  lemma {:induction false} TemplatesOfNew(paths: seq<Path>, symbols: seq<Symbol>, start: string)
    requires paths == ArbitragePaths(symbols, start, ARBITRAGE_DEPTH)
    ensures Templates(paths) == paths
  {
    forall i | 0 <= i < |paths| ensures Template(paths[i]) == paths[i] {
      ArbitragePathsExact(paths[i], symbols, start, ARBITRAGE_DEPTH);
      forall k | 0 <= k < |paths[i]| ensures Template(paths[i])[k] == paths[i][k] {
        assert IsLink(paths[i], symbols, start, k);
      }
    }
  }

  lemma {:induction false} StoredPathsNonEmpty(arrays: seq<array<Order>>, symbols: seq<Symbol>, start: string)
    requires Templates(PathsIn(arrays)) == ArbitragePaths(symbols, start, ARBITRAGE_DEPTH)
    ensures forall i :: 0 <= i < |arrays| ==> arrays[i].Length == ARBITRAGE_DEPTH
  {
    forall i | 0 <= i < |arrays| ensures arrays[i].Length == ARBITRAGE_DEPTH {
      ArbitragePathsExact(Templates(PathsIn(arrays))[i], symbols, start, ARBITRAGE_DEPTH);
    }
  }

  /** An evaluation never changes the symbols and the ways. */
  lemma {:induction false} EvalKeepsTemplate(path: Path, book: Book, amount: real)
    ensures Template(EvalLegs(path, book, amount).orders) == Template(path)
  {
    if path != [] && amount != 0.0 && path[0].symbol.name in book {
      var t := book[path[0].symbol.name];
      var rest := EvalLegs(path[1..], book, LegAmount(path[0], t, amount));
      EvalKeepsTemplate(path[1..], book, LegAmount(path[0], t, amount));
      var orders := [Fill(path[0], t, amount)] + rest.orders;
      assert |rest.orders| == |Template(rest.orders)| == |path[1..]|;
      forall i | 0 <= i < |path| ensures Template(orders)[i] == Template(path)[i] {
        if i > 0 {
          assert Template(rest.orders)[i-1] == Template(path[1..])[i-1];
        }
      }
    }
  }

  lemma StepKeepsTemplates(s: Strategy, data: Ticker)
    ensures Templates(Step(s, data).paths) == Templates(s.paths)
  {
    forall i | 0 <= i < |s.paths| ensures Template(Step(s, data).paths[i]) == Template(s.paths[i]) {
      EvalKeepsTemplate(s.paths[i], NextBook(s, data), RISK * BalanceOf(s.balance, StartOf(s.paths[i])));
    }
  }
}
