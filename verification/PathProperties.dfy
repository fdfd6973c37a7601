/** What the enumerated arbitrage paths have in common: no repetition, a bound on their number, closure under
    reversal. */
module PathProperties {
  import opened SymbolFilters
  import opened Market
  import opened PathSearch

  ghost predicate NoDup<T>(s: seq<T>) {
    forall i, j :: 0 <= i < j < |s| ==> s[i] != s[j]
  }

  lemma NoDupConcat<T>(a: seq<T>, b: seq<T>)
    requires NoDup(a) && NoDup(b) && forall x :: x in a ==> x !in b
    ensures NoDup(a + b)
  {
    forall i, j | 0 <= i < j < |a + b| ensures (a + b)[i] != (a + b)[j] {
      if i < |a| <= j {
        assert (a + b)[i] in a && (a + b)[j] in b;
      }
    }
  }

  lemma NoDupFront<T>(s: seq<T>)
    requires NoDup(s) && s != []
    ensures NoDup(s[..|s|-1]) && s[|s|-1] !in s[..|s|-1]
    ensures s == s[..|s|-1] + [s[|s|-1]]
  {}

  // ----- No path is listed twice -----

  lemma UnusedSymbolsNoDup(path: Path, symbols: seq<Symbol>)
    requires NoDup(symbols)
    ensures NoDup(UnusedSymbols(path, symbols))
  {
    if symbols != [] {
      var init, last := symbols[..|symbols|-1], symbols[|symbols|-1];
      NoDupFront(symbols);
      UnusedSymbolsNoDup(path, init);
      UnusedSymbolsExact(last, path, init);
      NoDupConcat(UnusedSymbols(path, init), if Unused(last, path) then [last] else []);
    }
  }

  lemma PossibleOrdersNoDup(coin: string, symbols: seq<Symbol>)
    requires NoDup(symbols)
    ensures NoDup(PossibleOrders(coin, symbols))
  {
    if symbols != [] {
      var init, last := symbols[..|symbols|-1], symbols[|symbols|-1];
      NoDupFront(symbols);
      PossibleOrdersNoDup(coin, init);
      forall o | o in OrdersOn(coin, last) ensures o !in PossibleOrders(coin, init) {
        PossibleOrdersExact(o, coin, init);
      }
      NoDupConcat(PossibleOrders(coin, init), OrdersOn(coin, last));
    }
  }

  lemma ExtendNoDup(path: Path, orders: seq<Order>, start: string, closing: bool)
    requires NoDup(orders)
    ensures NoDup(Extend(path, orders, start, closing))
  {
    if orders != [] {
      var init, last := orders[..|orders|-1], orders[|orders|-1];
      NoDupFront(orders);
      ExtendNoDup(path, init, start, closing);
      var p := path + [last];
      assert p[|p|-1] == last;
      ExtendExact(p, path, init, start, closing);
      NoDupConcat(Extend(path, init, start, closing), if closing && ResultingCoin(last) != start then [] else [p]);
    }
  }

  lemma {:induction false} ExtendAllNoDup(paths: seq<Path>, symbols: seq<Symbol>, start: string, closing: bool)
    requires NoDup(paths) && NoDup(symbols)
    ensures NoDup(ExtendAll(paths, symbols, start, closing))
  {
    if paths != [] {
      var init, last := paths[..|paths|-1], paths[|paths|-1];
      NoDupFront(paths);
      ExtendAllNoDup(init, symbols, start, closing);
      UnusedSymbolsNoDup(last, symbols);
      if last != [] {
        PossibleOrdersNoDup(ResultingCoin(last[|last|-1]), UnusedSymbols(last, symbols));
      }
      var orders := NextOrders(last, symbols);
      ExtendNoDup(last, orders, start, closing);
      forall p | p in ExtendAll(init, symbols, start, closing) ensures p !in Extend(last, orders, start, closing) {
        ExtendAllExact(p, init, symbols, start, closing);
        ExtendExact(p, last, orders, start, closing);
      }
      NoDupConcat(ExtendAll(init, symbols, start, closing), Extend(last, orders, start, closing));
    }
  }

  /** If the exchange lists no symbol twice, the search holds no path twice, after any number of rounds. */
  lemma {:induction false} LevelNoDup(symbols: seq<Symbol>, start: string, depth: int, r: nat)
    requires NoDup(symbols)
    ensures NoDup(Level(symbols, start, depth, r))
    decreases r
  {
    if r == 0 {
      PossibleOrdersNoDup(start, symbols);
      var firsts := PossibleOrders(start, symbols);
      forall i, j | 0 <= i < j < |firsts| ensures Singletons(firsts)[i] != Singletons(firsts)[j] {
        assert Singletons(firsts)[i][0] != Singletons(firsts)[j][0];
      }
    } else {
      LevelNoDup(symbols, start, depth, r - 1);
      ExtendAllNoDup(Level(symbols, start, depth, r - 1), symbols, start, r - 1 == depth - 2);
    }
  }

  /** The sequence of symbols determines the ways, hence the whole path. */
  lemma {:induction false} DeterminedBySymbols(p: Path, q: Path, symbols: seq<Symbol>, start: string)
    requires IsChain(p, symbols, start) && IsChain(q, symbols, start) && |p| == |q|
    requires forall i :: 0 <= i < |p| ==> p[i].symbol == q[i].symbol
    ensures p == q
  {
    if p != [] {
      var n := |p| - 1;
      var p', q' := p[..n], q[..n];
      assert p == p' + [p[n]] && q == q' + [q[n]];
      ChainSplit(p', p[n], symbols, start);
      ChainSplit(q', q[n], symbols, start);
      DeterminedBySymbols(p', q', symbols, start);
      assert IsLink(p, symbols, start, n) && IsLink(q, symbols, start, n);
    }
  }

  // ----- How many -----

  /** n(n-1)...(n-k+1): the number of ways to line up k of n symbols. */
  function Arrangements(n: nat, k: nat): nat {
    if k == 0 then 1 else Arrangements(n, k - 1) * (if k <= n then n - k + 1 else 0)
  }

  lemma UnusedCount(path: Path, symbols: seq<Symbol>)
    ensures |UnusedSymbols(path, symbols)| <= |symbols|
  {}

  /** Using one more listed symbol strictly shrinks the list of unused ones. */
  lemma UnusedShrinks(path: Path, o: Order, symbols: seq<Symbol>)
    ensures |UnusedSymbols(path + [o], symbols)| <= |UnusedSymbols(path, symbols)|
    ensures o.symbol in symbols && Unused(o.symbol, path) ==>
            |UnusedSymbols(path + [o], symbols)| < |UnusedSymbols(path, symbols)|
  {
    if symbols != [] {
      var init, last := symbols[..|symbols|-1], symbols[|symbols|-1];
      assert symbols == init + [last];
      UnusedShrinks(path, o, init);
      if Unused(last, path + [o]) {
        forall i | 0 <= i < |path| ensures !path[i].symbol.Same(last) {
          assert (path + [o])[i] == path[i];
        }
      }
      if last == o.symbol {
        assert (path + [o])[|path|] == o;
      }
    }
  }

  lemma {:induction false} ChainLeavesFewer(p: Path, symbols: seq<Symbol>, start: string)
    requires IsChain(p, symbols, start)
    ensures |UnusedSymbols(p, symbols)| + |p| <= |symbols|
  {
    if p == [] {
      UnusedCount(p, symbols);
    } else {
      var q, o := p[..|p|-1], p[|p|-1];
      assert p == q + [o];
      ChainSplit(q, o, symbols, start);
      ChainLeavesFewer(q, symbols, start);
      UnusedShrinks(q, o, symbols);
    }
  }

  lemma PossibleOrdersCount(coin: string, symbols: seq<Symbol>)
    ensures |PossibleOrders(coin, symbols)| <= |symbols|
  {}

  lemma ExtendCount(path: Path, orders: seq<Order>, start: string, closing: bool)
    ensures |Extend(path, orders, start, closing)| <= |orders|
  {}

  lemma {:induction false} ExtendAllCount(paths: seq<Path>, symbols: seq<Symbol>, start: string, closing: bool,
      fan: nat)
    requires forall i :: 0 <= i < |paths| ==> |NextOrders(paths[i], symbols)| <= fan
    ensures |ExtendAll(paths, symbols, start, closing)| <= |paths| * fan
  {
    if paths != [] {
      var init, last := paths[..|paths|-1], paths[|paths|-1];
      ExtendAllCount(init, symbols, start, closing, fan);
      ExtendCount(last, NextOrders(last, symbols), start, closing);
      ExtendAllUnroll(paths, symbols, start, closing);
      MulSucc(|init|, fan);
    }
  }

  lemma ExtendAllUnroll(paths: seq<Path>, symbols: seq<Symbol>, start: string, closing: bool)
    requires paths != []
    ensures var init, last := paths[..|paths|-1], paths[|paths|-1];
            |ExtendAll(paths, symbols, start, closing)|
            == |ExtendAll(init, symbols, start, closing)| + |Extend(last, NextOrders(last, symbols), start, closing)|
  {}

  lemma MulSucc(a: nat, c: nat)
    ensures (a + 1) * c == a * c + c
  {}

  lemma MulLe(a: nat, b: nat, c: nat)
    requires a <= b
    ensures a * c <= b * c
  {}

  lemma {:induction false} ChainFan(p: Path, symbols: seq<Symbol>, start: string)
    requires IsChain(p, symbols, start) && p != []
    ensures |NextOrders(p, symbols)| + |p| <= |symbols|
  {
    ChainLeavesFewer(p, symbols, start);
    PossibleOrdersCount(ResultingCoin(p[|p|-1]), UnusedSymbols(p, symbols));
  }

  lemma ArrangementsStep(n: nat, r: nat, count: nat)
    requires count <= Arrangements(n, r)
    ensures count * (if r + 1 <= n then n - r else 0) <= Arrangements(n, r + 1)
  {
    MulLe(count, Arrangements(n, r), if r + 1 <= n then n - r else 0);
  }

  /** One round multiplies the count by at most the number of symbols a path of that length leaves unused. */
  lemma {:induction false} RoundCount(previous: seq<Path>, symbols: seq<Symbol>, start: string, closing: bool, r: nat)
    requires 1 <= r && |previous| <= Arrangements(|symbols|, r)
    requires forall i :: 0 <= i < |previous| ==> IsChain(previous[i], symbols, start) && |previous[i]| == r
    ensures |ExtendAll(previous, symbols, start, closing)| <= Arrangements(|symbols|, r + 1)
  {
    hide IsChain, ExtendAll, NextOrders;
    var n := |symbols|;
    var fan := if r + 1 <= n then n - r else 0;
    forall i | 0 <= i < |previous| ensures |NextOrders(previous[i], symbols)| <= fan {
      ChainFan(previous[i], symbols, start);
    }
    ExtendAllCount(previous, symbols, start, closing, fan);
    ArrangementsStep(n, r, |previous|);
  }

  lemma {:induction false} LevelIsChains(symbols: seq<Symbol>, start: string, depth: int, r: nat)
    requires 2 <= depth && r < depth
    ensures forall i :: 0 <= i < |Level(symbols, start, depth, r)| ==>
            IsChain(Level(symbols, start, depth, r)[i], symbols, start) && |Level(symbols, start, depth, r)[i]| == r + 1
  {
    var level := Level(symbols, start, depth, r);
    forall i | 0 <= i < |level| ensures IsChain(level[i], symbols, start) && |level[i]| == r + 1 {
      assert level[i] in level;
      LevelIsExact(level[i], symbols, start, depth, r);
    }
  }

  lemma FirstCount(symbols: seq<Symbol>, start: string)
    ensures |Singletons(PossibleOrders(start, symbols))| <= Arrangements(|symbols|, 1)
  {
    PossibleOrdersCount(start, symbols);
    assert Arrangements(|symbols|, 0) == 1;
  }

  /** At most n(n-1)...(n-r) paths after r rounds, whatever the list of symbols. */
  lemma {:induction false} LevelCount(symbols: seq<Symbol>, start: string, depth: int, r: nat)
    requires 2 <= depth && r < depth
    ensures |Level(symbols, start, depth, r)| <= Arrangements(|symbols|, r + 1)
    decreases r
  {
    hide IsChain, ExtendAll, Arrangements;
    if r == 0 {
      FirstCount(symbols, start);
    } else {
      LevelCount(symbols, start, depth, r - 1);
      LevelIsChains(symbols, start, depth, r - 1);
      RoundCount(Level(symbols, start, depth, r - 1), symbols, start, r - 1 == depth - 2, r);
    }
  }

  // ----- Reversal -----

  function Flip(o: Order): Order {
    o.(way := if o.way == SELL then BUY else SELL)
  }

  /** The same trades in the other direction: orders reversed, ways flipped. */
  function Reverse(p: Path): (r: Path)
    ensures |r| == |p| && forall i :: 0 <= i < |p| ==> r[i] == Flip(p[|p| - 1 - i])
  {
    seq(|p|, i requires 0 <= i < |p| => Flip(p[|p| - 1 - i]))
  }

  /** The reverse of an arbitrage path is an arbitrage path exactly when no symbol on it quotes an asset in itself
      (such a symbol can only ever be sold). */
  lemma {:induction false} ReverseIsCycleIff(p: Path, symbols: seq<Symbol>, start: string, depth: nat)
    requires IsCycle(p, symbols, start, depth)
    ensures IsCycle(Reverse(p), symbols, start, depth) <==>
            forall i :: 0 <= i < depth ==> p[i].symbol.base != p[i].symbol.quote
  {
    var r := Reverse(p);
    forall i | 0 <= i < depth
      ensures IsLink(r, symbols, start, i) <==> p[depth - 1 - i].symbol.base != p[depth - 1 - i].symbol.quote
    {
      ReverseLink(p, symbols, start, depth, i);
    }
    forall i, j | 0 <= i < j < depth ensures Pair(r[i]) != Pair(r[j]) {
      assert Pair(p[depth - 1 - j]) != Pair(p[depth - 1 - i]);
    }
    assert IsLink(p, symbols, start, 0);
    if IsCycle(r, symbols, start, depth) {
      forall i | 0 <= i < depth ensures p[i].symbol.base != p[i].symbol.quote {
        assert IsLink(r, symbols, start, depth - 1 - i);
      }
    }
  }

  lemma {:induction false} ReverseLink(p: Path, symbols: seq<Symbol>, start: string, depth: nat, i: nat)
    requires IsCycle(p, symbols, start, depth) && i < depth
    ensures IsLink(Reverse(p), symbols, start, i) <==> p[depth - 1 - i].symbol.base != p[depth - 1 - i].symbol.quote
  {
    var r, k := Reverse(p), depth - 1 - i;
    assert IsLink(p, symbols, start, k);
    if i == 0 {
      assert CoinBefore(r, start, i) == p[k].ResultingAsset();
    } else {
      assert IsLink(p, symbols, start, k + 1);
      assert r[i-1] == Flip(p[k+1]);
      assert CoinBefore(r, start, i) == p[k+1].StartingAsset() == p[k].ResultingAsset();
    }
  }

  /** The set of returned paths is closed under reversal when no symbol quotes an asset in itself. */
  lemma {:induction false} PathsClosedUnderReversal(p: Path, symbols: seq<Symbol>, start: string, depth: nat)
    requires 2 <= depth && p in ArbitragePaths(symbols, start, depth)
    ensures Reverse(p) in ArbitragePaths(symbols, start, depth) <==>
            forall i :: 0 <= i < |p| ==> p[i].symbol.base != p[i].symbol.quote
  {
    ArbitragePathsExact(p, symbols, start, depth);
    ReverseIsCycleIff(p, symbols, start, depth);
    ArbitragePathsExact(Reverse(p), symbols, start, depth);
  }

  /** A path that sells the self-quoted AA is returned, its reverse is not. */
  lemma {:induction false} SelfQuoteHasNoReverse(f: SymbolFilter) returns (p: Path)
    ensures var symbols := [Symbol("A", "A", "AA", f), Symbol("A", "B", "AB", f), Symbol("B", "A", "BA", f)];
            && |p| == 3 && (forall i :: 0 <= i < 3 ==> p[i] == NewOrder(symbols[i], SELL))
            && p in ArbitragePaths(symbols, "A", 3) && Reverse(p) !in ArbitragePaths(symbols, "A", 3)
  {
    hide ArbitragePaths;
    var aa, ab, ba := Symbol("A", "A", "AA", f), Symbol("A", "B", "AB", f), Symbol("B", "A", "BA", f);
    var symbols := [aa, ab, ba];
    assert symbols[0] == aa && symbols[1] == ab && symbols[2] == ba && "A" != "B";
    p := [NewOrder(aa, SELL), NewOrder(ab, SELL), NewOrder(ba, SELL)];
    assert IsCycle(p, symbols, "A", 3);
    ArbitragePathsExact(p, symbols, "A", 3);
    PathsClosedUnderReversal(p, symbols, "A", 3);
    assert p[0].symbol.base == p[0].symbol.quote;
  }
}
