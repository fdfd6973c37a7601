/** The enumeration of arbitrage paths: the level-by-level loops, and the depth-first search they compute. */
module PathSearch {
  import opened Market

  /** No order of the path uses this symbol. */
  predicate Unused(symbol: Symbol, path: Path) {
    forall i :: 0 <= i < |path| ==> !path[i].symbol.Same(symbol)
  }

  /** The order a coin allows on a symbol, if any: sell when the coin is the base, buy when it is only the quote. */
  function OrdersOn(coin: string, symbol: Symbol): seq<Order> {
    if coin == symbol.base then [NewOrder(symbol, SELL)]
    else if coin == symbol.quote then [NewOrder(symbol, BUY)]
    else []
  }

  function PossibleOrders(coin: string, symbols: seq<Symbol>): seq<Order> {
    if symbols == [] then []
    else PossibleOrders(coin, symbols[..|symbols|-1]) + OrdersOn(coin, symbols[|symbols|-1])
  }

  function UnusedSymbols(path: Path, symbols: seq<Symbol>): seq<Symbol> {
    if symbols == [] then []
    else
      var last := symbols[|symbols|-1];
      UnusedSymbols(path, symbols[..|symbols|-1]) + (if Unused(last, path) then [last] else [])
  }

  /** The coin an order leaves; the search tests for SELL where Order.ResultingAsset tests for BUY. */
  function ResultingCoin(o: Order): string {
    if o.way == SELL then o.symbol.quote else o.symbol.base
  }

  function NextOrders(path: Path, symbols: seq<Symbol>): seq<Order> {
    if path == [] then [] else PossibleOrders(ResultingCoin(path[|path|-1]), UnusedSymbols(path, symbols))
  }

  /** The path extended by each order in turn; a closing extension must come back to the start. */
  function Extend(path: Path, orders: seq<Order>, start: string, closing: bool): seq<Path> {
    if orders == [] then []
    else
      var last := orders[|orders|-1];
      Extend(path, orders[..|orders|-1], start, closing)
      + (if closing && ResultingCoin(last) != start then [] else [path + [last]])
  }

  ghost predicate NonEmptyPaths(paths: seq<Path>) {
    forall i :: 0 <= i < |paths| ==> paths[i] != []
  }

  /** One round of the outer loop. */
  function ExtendAll(paths: seq<Path>, symbols: seq<Symbol>, start: string, closing: bool): seq<Path> {
    if paths == [] then []
    else
      var last := paths[|paths|-1];
      ExtendAll(paths[..|paths|-1], symbols, start, closing) + Extend(last, NextOrders(last, symbols), start, closing)
  }

  function Singletons(orders: seq<Order>): (r: seq<Path>)
    ensures |r| == |orders| && forall i :: 0 <= i < |r| ==> r[i] == [orders[i]]
  {
    seq(|orders|, i requires 0 <= i < |orders| => [orders[i]])
  }

  /** stratPaths after the given number of rounds, for a search of this depth. */
  function Level(symbols: seq<Symbol>, start: string, depth: int, rounds: nat): seq<Path> {
    if rounds == 0 then Singletons(PossibleOrders(start, symbols))
    else ExtendAll(Level(symbols, start, depth, rounds - 1), symbols, start, rounds - 1 == depth - 2)
  }

  method GetPossibleOrders(coin: string, relatedSymbols: seq<Symbol>) returns (orders: seq<Order>)
    ensures orders == PossibleOrders(coin, relatedSymbols)
  {
    orders := [];
    for i := 0 to |relatedSymbols|
      invariant orders == PossibleOrders(coin, relatedSymbols[..i])
    {
      var symbol := relatedSymbols[i];
      assert relatedSymbols[..i+1][..i] == relatedSymbols[..i];
      if coin == symbol.base {
        orders := orders + [NewOrder(symbol, SELL)];
      } else if coin == symbol.quote {
        orders := orders + [NewOrder(symbol, BUY)];
      }
    }
    assert relatedSymbols[..|relatedSymbols|] == relatedSymbols;
  }

  method FilterUnused(path: Path, symbols: seq<Symbol>) returns (unused: seq<Symbol>)
    ensures unused == UnusedSymbols(path, symbols)
  {
    unused := [];
    for i := 0 to |symbols|
      invariant unused == UnusedSymbols(path, symbols[..i])
    {
      assert symbols[..i+1][..i] == symbols[..i];
      if Unused(symbols[i], path) {
        unused := unused + [symbols[i]];
      }
    }
    assert symbols[..|symbols|] == symbols;
  }

  /** The inner loop: every admissible extension of one path, appended to the paths of the next level. */
  method PushExtensions(path: Path, symbols: seq<Symbol>, start: string, closing: bool, paths: seq<Path>)
    returns (r: seq<Path>)
    requires path != []
    ensures r == paths + Extend(path, NextOrders(path, symbols), start, closing)
    ensures NonEmptyPaths(paths) ==> NonEmptyPaths(r)
  {
    hide PossibleOrders, UnusedSymbols, Unused;
    var resultingCoin := ResultingCoin(path[|path|-1]);
    var unusedSymbols := FilterUnused(path, symbols);
    var next := GetPossibleOrders(resultingCoin, unusedSymbols);
    r := paths;
    for i := 0 to |next|
      invariant r == paths + Extend(path, next[..i], start, closing)
      invariant NonEmptyPaths(paths) ==> NonEmptyPaths(r)
    {
      assert next[..i+1][..i] == next[..i];
      if !(closing && ResultingCoin(next[i]) != start) {
        r := r + [path + [next[i]]];
      }
    }
    assert next[..|next|] == next;
  }

  method NextLevel(stratPaths: seq<Path>, symbols: seq<Symbol>, start: string, closing: bool) returns (paths: seq<Path>)
    requires NonEmptyPaths(stratPaths)
    ensures paths == ExtendAll(stratPaths, symbols, start, closing)
    ensures NonEmptyPaths(paths)
  {
    paths := [];
    for k := 0 to |stratPaths|
      invariant paths == ExtendAll(stratPaths[..k], symbols, start, closing)
      invariant NonEmptyPaths(paths)
    {
      assert stratPaths[..k+1][..k] == stratPaths[..k];
      paths := PushExtensions(stratPaths[k], symbols, start, closing, paths);
    }
    assert stratPaths[..|stratPaths|] == stratPaths;
  }

  function Rounds(depth: int): nat {
    if depth <= 1 then 0 else depth - 1
  }

  /** All paths of the given depth, by rounds of extension; below depth 2 no round runs and nothing has to close. */
  method ComputeArbitragePaths(symbolsList: seq<Symbol>, startingAsset: string, arbitrageDepth: int)
    returns (stratPaths: seq<Path>)
    ensures stratPaths == Level(symbolsList, startingAsset, arbitrageDepth, Rounds(arbitrageDepth))
    ensures 2 <= arbitrageDepth ==> stratPaths == ArbitragePaths(symbolsList, startingAsset, arbitrageDepth)
    ensures 2 <= arbitrageDepth ==>
              forall p :: p in stratPaths <==> IsCycle(p, symbolsList, startingAsset, arbitrageDepth)
  {
    hide ExtendAll, PossibleOrders, IsCycle, ArbitragePaths;
    var firstOrders := GetPossibleOrders(startingAsset, symbolsList);
    stratPaths := [];
    for k := 0 to |firstOrders|
      invariant stratPaths == Singletons(firstOrders)[..k]
    {
      stratPaths := stratPaths + [[firstOrders[k]]];
    }
    var i := 0;
    while i < arbitrageDepth - 1
      invariant 0 <= i <= Rounds(arbitrageDepth)
      invariant stratPaths == Level(symbolsList, startingAsset, arbitrageDepth, i)
      invariant NonEmptyPaths(stratPaths)
    {
      stratPaths := NextLevel(stratPaths, symbolsList, startingAsset, i == arbitrageDepth - 2);
      i := i + 1;
    }
    if 2 <= arbitrageDepth {
      LevelsAreDepthFirst(symbolsList, startingAsset, arbitrageDepth);
      ArbitragePathsAreCycles(symbolsList, startingAsset, arbitrageDepth);
    }
  }

  // ----- What is enumerated -----

  /** The coin held before order i. */
  function CoinBefore(p: Path, start: string, i: nat): string
    requires i <= |p|
  {
    if i == 0 then start else p[i-1].ResultingAsset()
  }

  /** Order i is fresh, trades a listed symbol, spends the coin held, and sells if that coin is the base, otherwise
      buys. */
  ghost predicate IsLink(p: Path, symbols: seq<Symbol>, start: string, i: nat)
    requires i < |p|
  {
    var coin := CoinBefore(p, start, i);
    && p[i].symbol in symbols
    && p[i] == NewOrder(p[i].symbol, if coin == p[i].symbol.base then SELL else BUY)
    && p[i].StartingAsset() == coin
  }

  /** No two orders trade the same base for the same quote. */
  ghost predicate NoSymbolTwice(p: Path) {
    forall i, j :: 0 <= i < j < |p| ==> Pair(p[i]) != Pair(p[j])
  }

  function Pair(o: Order): (string, string) {
    (o.symbol.base, o.symbol.quote)
  }

  ghost predicate IsChain(p: Path, symbols: seq<Symbol>, start: string) {
    && (forall i :: 0 <= i < |p| ==> IsLink(p, symbols, start, i))
    && NoSymbolTwice(p)
  }

  ghost predicate IsCycle(p: Path, symbols: seq<Symbol>, start: string, depth: int) {
    IsChain(p, symbols, start) && |p| == depth && 0 < depth && p[depth-1].ResultingAsset() == start
  }

  lemma PossibleOrdersExact(o: Order, coin: string, symbols: seq<Symbol>)
    ensures o in PossibleOrders(coin, symbols) <==> o.symbol in symbols && o in OrdersOn(coin, o.symbol)
  {}

  lemma UnusedSymbolsExact(s: Symbol, path: Path, symbols: seq<Symbol>)
    ensures s in UnusedSymbols(path, symbols) <==> s in symbols && Unused(s, path)
  {}

  lemma ExtendExact(p: Path, path: Path, orders: seq<Order>, start: string, closing: bool)
    ensures p in Extend(path, orders, start, closing) <==>
            p != [] && p[..|p|-1] == path && p[|p|-1] in orders && (closing ==> ResultingCoin(p[|p|-1]) == start)
  {
    if orders != [] {
      var last := orders[|orders|-1];
      assert orders == orders[..|orders|-1] + [last];
      ExtendExact(p, path, orders[..|orders|-1], start, closing);
      assert p == path + [last] <==> p != [] && p[..|p|-1] == path && p[|p|-1] == last;
    }
  }

  lemma {:induction false} ExtendAllExact(p: Path, paths: seq<Path>, symbols: seq<Symbol>, start: string, closing: bool)
    ensures p in ExtendAll(paths, symbols, start, closing) <==>
            p != [] && p[..|p|-1] in paths && p[|p|-1] in NextOrders(p[..|p|-1], symbols)
            && (closing ==> ResultingCoin(p[|p|-1]) == start)
  {
    if paths != [] {
      var last := paths[|paths|-1];
      assert paths == paths[..|paths|-1] + [last];
      ExtendAllExact(p, paths[..|paths|-1], symbols, start, closing);
      ExtendExact(p, last, NextOrders(last, symbols), start, closing);
    }
  }

  /** A chain is a shorter chain, a last link, and a last symbol not used before. */
  lemma {:induction false} ChainSplit(q: Path, o: Order, symbols: seq<Symbol>, start: string)
    ensures IsChain(q + [o], symbols, start) <==>
            IsChain(q, symbols, start) && IsLink(q + [o], symbols, start, |q|) && Unused(o.symbol, q)
  {
    var p := q + [o];
    forall i | 0 <= i < |q| ensures IsLink(p, symbols, start, i) <==> IsLink(q, symbols, start, i) {
      assert p[i] == q[i] && CoinBefore(p, start, i) == CoinBefore(q, start, i);
    }
    if NoSymbolTwice(p) {
      forall i, j | 0 <= i < j < |q| ensures Pair(q[i]) != Pair(q[j]) {
        assert p[i] == q[i] && p[j] == q[j];
      }
      forall i | 0 <= i < |q| ensures Pair(q[i]) != Pair(o) {
        assert p[i] == q[i] && p[|q|] == o;
      }
    }
    if NoSymbolTwice(q) && Unused(o.symbol, q) {
      assert NoSymbolTwice(p);
    }
  }

  lemma LinkCoin(o: Order, symbols: seq<Symbol>, coin: string)
    ensures o.symbol in symbols && o in OrdersOn(coin, o.symbol) <==>
            && o.symbol in symbols && o == NewOrder(o.symbol, if coin == o.symbol.base then SELL else BUY)
            && o.StartingAsset() == coin
  {}

  /** A chain grows by exactly the orders that the inner loop tries. */
  lemma {:induction false} ChainGrows(q: Path, o: Order, symbols: seq<Symbol>, start: string)
    requires q != []
    ensures IsChain(q + [o], symbols, start) <==> IsChain(q, symbols, start) && o in NextOrders(q, symbols)
  {
    ChainSplit(q, o, symbols, start);
    if IsChain(q, symbols, start) {
      assert IsLink(q, symbols, start, |q| - 1);
      var coin := ResultingCoin(q[|q|-1]);
      PossibleOrdersExact(o, coin, UnusedSymbols(q, symbols));
      UnusedSymbolsExact(o.symbol, q, symbols);
      LinkCoin(o, symbols, coin);
      assert CoinBefore(q + [o], start, |q|) == coin;
    }
  }

  lemma {:induction false} FirstLevelIsExact(p: Path, symbols: seq<Symbol>, start: string)
    ensures p in Singletons(PossibleOrders(start, symbols)) <==> |p| == 1 && IsChain(p, symbols, start)
  {
    var firsts := PossibleOrders(start, symbols);
    if |p| == 1 {
      PossibleOrdersExact(p[0], start, symbols);
      LinkCoin(p[0], symbols, start);
      assert p == [p[0]];
      assert IsChain(p, symbols, start) <==> IsLink(p, symbols, start, 0);
      if p[0] in firsts {
        var k :| 0 <= k < |firsts| && firsts[k] == p[0];
        assert Singletons(firsts)[k] == p;
      }
    }
  }

  /** The last coin of a chain, as the search computes it. */
  lemma LastCoin(p: Path, symbols: seq<Symbol>, start: string)
    requires IsChain(p, symbols, start) && p != []
    ensures ResultingCoin(p[|p|-1]) == p[|p|-1].ResultingAsset()
  {
    assert IsLink(p, symbols, start, |p| - 1);
  }

  ghost predicate AtLevel(p: Path, symbols: seq<Symbol>, start: string, depth: int, r: nat) {
    IsChain(p, symbols, start) && |p| == r + 1 && (r == depth - 1 ==> p[r].ResultingAsset() == start)
  }

  lemma {:induction false} RoundIsExact(p: Path, previous: seq<Path>, symbols: seq<Symbol>, start: string,
      closing: bool, r: nat)
    requires 1 <= r
    requires p != [] ==> (p[..|p|-1] in previous <==> IsChain(p[..|p|-1], symbols, start) && |p| - 1 == r)
    ensures p in ExtendAll(previous, symbols, start, closing) <==>
            IsChain(p, symbols, start) && |p| == r + 1 && (closing ==> p[r].ResultingAsset() == start)
  {
    ExtendAllExact(p, previous, symbols, start, closing);
    if |p| >= 2 {
      var q, o := p[..|p|-1], p[|p|-1];
      assert p == q + [o];
      ChainGrows(q, o, symbols, start);
      if IsChain(p, symbols, start) {
        LastCoin(p, symbols, start);
      }
    }
  }

  /** After r rounds: exactly the chains of r + 1 orders, and after the last round exactly those that close. */
  lemma {:induction false} LevelIsExact(p: Path, symbols: seq<Symbol>, start: string, depth: int, r: nat)
    requires 2 <= depth && r < depth
    ensures p in Level(symbols, start, depth, r) <==> AtLevel(p, symbols, start, depth, r)
    decreases r
  {
    if r == 0 {
      FirstLevelIsExact(p, symbols, start);
    } else {
      if p != [] {
        LevelIsExact(p[..|p|-1], symbols, start, depth, r - 1);
      }
      RoundIsExact(p, Level(symbols, start, depth, r - 1), symbols, start, r - 1 == depth - 2, r);
    }
  }

  // ----- The same paths, in the same order, depth first -----

  /** Every completion of one path by the given number of further orders, depth first. */
  function Search(path: Path, symbols: seq<Symbol>, start: string, remaining: nat): seq<Path>
    decreases remaining, 0
  {
    if remaining == 0 then [path]
    else
      SearchAll(Extend(path, NextOrders(path, symbols), start, remaining == 1), symbols, start, remaining - 1)
  }

  function SearchAll(paths: seq<Path>, symbols: seq<Symbol>, start: string, remaining: nat): seq<Path>
    decreases remaining, |paths| + 1
  {
    if paths == [] then []
    else SearchAll(paths[..|paths|-1], symbols, start, remaining) + Search(paths[|paths|-1], symbols, start, remaining)
  }

  function ArbitragePaths(symbols: seq<Symbol>, start: string, depth: nat): seq<Path>
    requires 1 <= depth
  {
    SearchAll(Singletons(PossibleOrders(start, symbols)), symbols, start, depth - 1)
  }

  lemma {:induction false} SearchAllConcat(a: seq<Path>, b: seq<Path>, symbols: seq<Symbol>, start: string,
      remaining: nat)
    ensures SearchAll(a + b, symbols, start, remaining)
            == SearchAll(a, symbols, start, remaining) + SearchAll(b, symbols, start, remaining)
  {
    hide Search, Extend, NextOrders;
    if b == [] {
      assert a + b == a;
    } else {
      SearchAllConcat(a, b[..|b|-1], symbols, start, remaining);
      assert (a + b)[..|a + b|-1] == a + b[..|b|-1];
    }
  }

  /** One round of extension leaves the set of completions, and their order, unchanged. */
  lemma {:induction false} RoundKeepsSearch(paths: seq<Path>, symbols: seq<Symbol>, start: string, remaining: nat)
    requires 0 < remaining
    ensures SearchAll(ExtendAll(paths, symbols, start, remaining == 1), symbols, start, remaining - 1)
            == SearchAll(paths, symbols, start, remaining)
  {
    if paths != [] {
      var init, last := paths[..|paths|-1], paths[|paths|-1];
      RoundKeepsSearch(init, symbols, start, remaining);
      SearchAllConcat(ExtendAll(init, symbols, start, remaining == 1),
                      Extend(last, NextOrders(last, symbols), start, remaining == 1), symbols, start, remaining - 1);
    }
  }

  lemma SearchAllDone(paths: seq<Path>, symbols: seq<Symbol>, start: string)
    ensures SearchAll(paths, symbols, start, 0) == paths
  {}

  lemma {:induction false} LevelKeepsSearch(symbols: seq<Symbol>, start: string, depth: nat, r: nat)
    requires 2 <= depth && r < depth
    ensures SearchAll(Level(symbols, start, depth, r), symbols, start, depth - 1 - r)
            == ArbitragePaths(symbols, start, depth)
  {
    if r > 0 {
      LevelKeepsSearch(symbols, start, depth, r - 1);
      RoundKeepsSearch(Level(symbols, start, depth, r - 1), symbols, start, depth - r);
    }
  }

  /** The level-by-level loops list the same paths in the same order as the depth-first search. */
  lemma {:induction false} LevelsAreDepthFirst(symbols: seq<Symbol>, start: string, depth: nat)
    requires 2 <= depth
    ensures Level(symbols, start, depth, depth - 1) == ArbitragePaths(symbols, start, depth)
  {
    LevelKeepsSearch(symbols, start, depth, depth - 1);
    SearchAllDone(Level(symbols, start, depth, depth - 1), symbols, start);
  }

  lemma {:induction false} ArbitragePathsExact(p: Path, symbols: seq<Symbol>, start: string, depth: nat)
    requires 2 <= depth
    ensures p in ArbitragePaths(symbols, start, depth) <==> IsCycle(p, symbols, start, depth)
  {
    hide Level, ArbitragePaths, IsChain;
    LevelsAreDepthFirst(symbols, start, depth);
    LevelIsExact(p, symbols, start, depth, depth - 1);
  }

  lemma {:induction false} ArbitragePathsAreCycles(symbols: seq<Symbol>, start: string, depth: nat)
    requires 2 <= depth
    ensures forall p :: p in ArbitragePaths(symbols, start, depth) <==> IsCycle(p, symbols, start, depth)
  {
    forall p ensures p in ArbitragePaths(symbols, start, depth) <==> IsCycle(p, symbols, start, depth) {
      ArbitragePathsExact(p, symbols, start, depth);
    }
  }

  // ----- Cycles in terms of coins -----

  /** A market order without size or price that sells a listed symbol's base for its quote, or buys its base with its
      quote where it could not sell. */
  ghost predicate Trades(o: Order, from: string, to: string, symbols: seq<Symbol>) {
    && o.symbol in symbols && o.kind == MARKET && o.qty == 0.0 && o.price == 0.0
    && match o.way
       case SELL => o.symbol.base == from && o.symbol.quote == to
       case BUY => o.symbol.base != from && o.symbol.quote == from && o.symbol.base == to
       case HOLD => false
  }

  /** The orders lead from coin to coin, and no two of them trade the same pair of assets. */
  ghost predicate RoundTrip(p: Path, coins: seq<string>, symbols: seq<Symbol>, start: string) {
    && |coins| == |p| + 1 && coins[0] == start && coins[|p|] == start
    && (forall i :: 0 <= i < |p| ==> Trades(p[i], coins[i], coins[i+1], symbols))
    && (forall i, j :: 0 <= i < j < |p| ==>
          p[i].symbol.base != p[j].symbol.base || p[i].symbol.quote != p[j].symbol.quote)
  }

  lemma LinkTrades(p: Path, symbols: seq<Symbol>, start: string, i: nat)
    requires i < |p|
    ensures IsLink(p, symbols, start, i) <==>
            Trades(p[i], CoinBefore(p, start, i), CoinBefore(p, start, i + 1), symbols)
  {}

  lemma {:induction false} CoinsAre(p: Path, coins: seq<string>, symbols: seq<Symbol>, start: string, i: nat)
    requires RoundTrip(p, coins, symbols, start) && i <= |p|
    ensures CoinBefore(p, start, i) == coins[i]
  {
    if i > 0 {
      assert Trades(p[i-1], coins[i-1], coins[i], symbols);
    }
  }

  /** The search returns exactly the round trips: the orders carry the starting asset from coin to coin, and back. */
  lemma {:induction false} PathsAreRoundTrips(p: Path, symbols: seq<Symbol>, start: string, depth: nat)
    requires 2 <= depth
    ensures p in ArbitragePaths(symbols, start, depth) <==>
            |p| == depth && exists coins: seq<string> :: RoundTrip(p, coins, symbols, start)
  {
    hide ArbitragePaths, IsLink, Trades;
    ArbitragePathsExact(p, symbols, start, depth);
    if IsCycle(p, symbols, start, depth) {
      var coins := seq(depth + 1, i requires 0 <= i <= depth => CoinBefore(p, start, i));
      forall i | 0 <= i < |p| ensures Trades(p[i], coins[i], coins[i+1], symbols) {
        assert IsLink(p, symbols, start, i);
        LinkTrades(p, symbols, start, i);
      }
      forall i, j | 0 <= i < j < |p|
        ensures p[i].symbol.base != p[j].symbol.base || p[i].symbol.quote != p[j].symbol.quote
      {
        assert Pair(p[i]) != Pair(p[j]);
      }
      assert RoundTrip(p, coins, symbols, start);
    }
    if |p| == depth && exists coins: seq<string> :: RoundTrip(p, coins, symbols, start) {
      var coins: seq<string> :| RoundTrip(p, coins, symbols, start);
      forall i | 0 <= i < |p| ensures IsLink(p, symbols, start, i) {
        CoinsAre(p, coins, symbols, start, i);
        CoinsAre(p, coins, symbols, start, i + 1);
        LinkTrades(p, symbols, start, i);
      }
      CoinsAre(p, coins, symbols, start, |p|);
      assert IsCycle(p, symbols, start, depth);
    }
  }
}
