/** What holds over any run of market data updates. */
module StrategyRuns {
  import opened Wrappers
  import opened SymbolFilters
  import opened Market
  import opened PathSearch
  import opened Evaluation
  import opened NoArbitrage
  import opened Wallets
  import opened CircularArbitrage
  import opened Selection

  function Run(s: Strategy, updates: seq<Ticker>): Strategy {
    if updates == [] then s else Step(Run(s, updates[..|updates|-1]), updates[|updates|-1])
  }

  lemma RunStep(s: Strategy, updates: seq<Ticker>, data: Ticker)
    ensures Run(s, updates + [data]) == Step(Run(s, updates), data)
  {}

  /** What the strategy holds of its starting asset; nothing if that is not among its balances. */
  function StartingBalance(s: Strategy): real {
    if s.start in s.balance then s.balance[s.start] else 0.0
  }

  /** Some order of the path trades the symbol of this name. */
  ghost predicate Uses(path: Path, name: string) {
    exists j :: 0 <= j < |path| && path[j].symbol.name == name
  }

  /** The paths are cycles found by the search, on symbols with well-formed filters; balances are not negative. */
  ghost predicate Ready(s: Strategy, symbols: seq<Symbol>) {
    && (forall i :: 0 <= i < |s.paths| ==> IsCycle(Template(s.paths[i]), symbols, s.start, ARBITRAGE_DEPTH))
    && (forall x :: x in symbols ==> x.filter.WellFormed())
    && 0.0 <= StartingBalance(s)
  }

  /** The state right after construction is ready. */
  lemma InitialIsReady(symbols: seq<Symbol>, start: string, book: Book, balance: map<string, real>)
    requires forall x :: x in symbols ==> x.filter.WellFormed()
    requires start in balance ==> 0.0 <= balance[start]
    ensures Ready(Strategy(start, ArbitragePaths(symbols, start, ARBITRAGE_DEPTH), book, balance), symbols)
  {
    var paths := ArbitragePaths(symbols, start, ARBITRAGE_DEPTH);
    TemplatesOfNew(paths, symbols, start);
    forall i | 0 <= i < |paths| ensures IsCycle(Template(paths[i]), symbols, start, ARBITRAGE_DEPTH) {
      assert Templates(paths)[i] == paths[i];
      ArbitragePathsExact(paths[i], symbols, start, ARBITRAGE_DEPTH);
    }
  }

  /** A path whose symbols and ways form a cycle is closed, tradable, and starts from the starting asset. */
  lemma CycleIsClosed(p: Path, symbols: seq<Symbol>, start: string)
    requires IsCycle(Template(p), symbols, start, ARBITRAGE_DEPTH)
    requires forall x :: x in symbols ==> x.filter.WellFormed()
    ensures Closed(p) && Tradable(p) && StartOf(p) == start
  {
    var t := Template(p);
    forall i | 0 <= i < |p|
      ensures p[i].way != HOLD && p[i].symbol.filter.WellFormed() && p[i].StartingAsset() == CoinBefore(t, start, i)
    {
      assert IsLink(t, symbols, start, i);
    }
    forall i | 0 < i < |p| ensures p[i].StartingAsset() == p[i-1].ResultingAsset() {
      assert CoinBefore(t, start, i) == t[i-1].ResultingAsset();
    }
  }

  lemma {:induction false} StepKeepsReady(s: Strategy, data: Ticker, symbols: seq<Symbol>)
    requires Ready(s, symbols)
    ensures Ready(Step(s, data), symbols)
    ensures StartingBalance(Step(s, data)) == StartingBalance(s)
  {
    StepKeepsTemplates(s, data);
    DefaultsKeepBalances(s.balance, s.paths, data.symbol, s.start);
    forall i | 0 <= i < |s.paths| ensures IsCycle(Template(Step(s, data).paths[i]), symbols, s.start, ARBITRAGE_DEPTH) {
      assert Templates(Step(s, data).paths)[i] == Templates(s.paths)[i];
    }
  }

  /** Over any run: the number, the symbols and the ways of the paths never change, nor does the starting balance. */
  lemma {:induction false} RunKeepsReady(s: Strategy, updates: seq<Ticker>, symbols: seq<Symbol>)
    requires Ready(s, symbols)
    ensures var final := Run(s, updates);
            && Ready(final, symbols) && final.start == s.start && Templates(final.paths) == Templates(s.paths)
            && StartingBalance(final) == StartingBalance(s)
  {
    if updates != [] {
      var init := Run(s, updates[..|updates|-1]);
      RunKeepsReady(s, updates[..|updates|-1], symbols);
      StepKeepsReady(init, updates[|updates|-1], symbols);
      StepKeepsTemplates(init, updates[|updates|-1]);
    }
  }

  // ----- The book and the balances -----

  /** No later update carries the name of update k. */
  ghost predicate IsLatest(updates: seq<Ticker>, k: nat)
    requires k < |updates|
  {
    forall j :: k < j < |updates| ==> updates[j].symbol != updates[k].symbol
  }

  lemma BookOnceMore(s: Strategy, updates: seq<Ticker>)
    requires updates != []
    ensures var earlier, data := updates[..|updates|-1], updates[|updates|-1];
            Run(s, updates).book == Run(s, earlier).book[data.symbol := data]
  {}

  /** A name that no update carries keeps its first entry, if it has one. */
  lemma {:induction false} OtherNamesStay(s: Strategy, updates: seq<Ticker>, name: string)
    requires forall k :: 0 <= k < |updates| ==> updates[k].symbol != name
    ensures name in Run(s, updates).book <==> name in s.book
    ensures name in s.book ==> Run(s, updates).book[name] == s.book[name]
  {
    if updates != [] {
      BookOnceMore(s, updates);
      hide Run;
      var earlier := updates[..|updates|-1];
      forall k | 0 <= k < |earlier| ensures earlier[k].symbol != name {
        assert earlier[k] == updates[k];
      }
      OtherNamesStay(s, earlier, name);
    }
  }

  lemma {:induction false} LatestIsHeld(s: Strategy, updates: seq<Ticker>, k: nat)
    requires k < |updates| && IsLatest(updates, k)
    ensures updates[k].symbol in Run(s, updates).book && Run(s, updates).book[updates[k].symbol] == updates[k]
  {
    BookOnceMore(s, updates);
    hide Run;
    var earlier := updates[..|updates|-1];
    if k < |earlier| {
      assert updates[|updates|-1].symbol != updates[k].symbol;
      forall j | k < j < |earlier| ensures earlier[j].symbol != earlier[k].symbol {
        assert earlier[j] == updates[j];
      }
      LatestIsHeld(s, earlier, k);
    }
  }

  /** After a run the book holds, for each name, the last update that carries it, or else the first entry, if any. */
  lemma {:induction false} BookIsLastUpdate(s: Strategy, updates: seq<Ticker>)
    ensures forall k :: 0 <= k < |updates| && IsLatest(updates, k) ==>
              updates[k].symbol in Run(s, updates).book && Run(s, updates).book[updates[k].symbol] == updates[k]
    ensures forall name: string :: (forall k :: 0 <= k < |updates| ==> updates[k].symbol != name) ==>
              && (name in Run(s, updates).book <==> name in s.book)
              && (name in s.book ==> Run(s, updates).book[name] == s.book[name])
  {
    hide Run, IsLatest;
    forall k | 0 <= k < |updates| && IsLatest(updates, k)
      ensures updates[k].symbol in Run(s, updates).book && Run(s, updates).book[updates[k].symbol] == updates[k]
    {
      LatestIsHeld(s, updates, k);
    }
    forall name: string | forall k :: 0 <= k < |updates| ==> updates[k].symbol != name
      ensures name in Run(s, updates).book <==> name in s.book
      ensures name in s.book ==> Run(s, updates).book[name] == s.book[name]
    {
      OtherNamesStay(s, updates, name);
    }
  }

  /** Reading the balance of the starting asset inserts a missing one as 0 as soon as some path is evaluated; nothing
      else happens to the balances over a run. */
  lemma {:induction false} BalancesOverRun(s: Strategy, updates: seq<Ticker>, symbols: seq<Symbol>)
    requires Ready(s, symbols)
    ensures Run(s, updates).balance
            == if s.start !in s.balance && (exists i :: 0 <= i < |s.paths| && Updated(s.paths[i], updates))
               then s.balance[s.start := 0.0] else s.balance
  {
    if updates != [] {
      var earlier, data := updates[..|updates|-1], updates[|updates|-1];
      var before := Run(s, earlier);
      BalancesOverRun(s, earlier, symbols);
      RunKeepsReady(s, earlier, symbols);
      forall i | 0 <= i < |s.paths|
        ensures Updated(s.paths[i], updates) <==> Updated(s.paths[i], earlier) || Touches(before.paths[i], data.symbol)
        ensures StartOf(before.paths[i]) == s.start
      {
        UpdatedOnceMore(s.paths[i], updates);
        assert Templates(before.paths)[i] == Templates(s.paths)[i];
        UsesByTemplate(before.paths[i], s.paths[i], data.symbol);
        CycleIsClosed(before.paths[i], symbols, s.start);
      }
      DefaultsAre(before.balance, before.paths, data.symbol, s.start);
    }
  }

  lemma {:induction false} DefaultsAre(balance: map<string, real>, paths: seq<Path>, name: string, start: string)
    requires forall i :: 0 <= i < |paths| ==> StartOf(paths[i]) == start
    ensures Defaults(balance, paths, name)
            == if start !in balance && (exists i :: 0 <= i < |paths| && Touches(paths[i], name))
               then balance[start := 0.0] else balance
  {
    hide Touches;
    if paths != [] {
      var init := paths[..|paths|-1];
      DefaultsAre(balance, init, name, start);
      if i :| 0 <= i < |init| && Touches(init[i], name) {
        assert paths[i] == init[i];
      }
      if i :| 0 <= i < |paths| && Touches(paths[i], name) {
        assert i < |init| ==> init[i] == paths[i];
      }
    }
  }

  // ----- Incremental evaluation -----

  /** An update of a symbol that is not on the path does not change what the path evaluates to. */
  lemma {:induction false} EvalIgnoresOthers(path: Path, book: Book, data: Ticker, amount: real)
    requires !Touches(path, data.symbol)
    ensures EvalLegs(path, book[data.symbol := data], amount) == EvalLegs(path, book, amount)
  {
    if path != [] {
      assert path[0].symbol.name != data.symbol;
      if amount != 0.0 && path[0].symbol.name in book {
        forall i | 0 <= i < |path[1..]| ensures path[1..][i].symbol.name != data.symbol {
          assert path[1..][i] == path[i+1];
        }
        EvalIgnoresOthers(path[1..], book, data, LegAmount(path[0], book[path[0].symbol.name], amount));
      }
    }
  }

  /** Prices and sizes already stored in the orders do not influence an evaluation: evaluating again changes nothing. */
  lemma {:induction false} EvalTwice(path: Path, book: Book, amount: real)
    ensures EvalLegs(EvalLegs(path, book, amount).orders, book, amount) == EvalLegs(path, book, amount)
  {
    hide LegPrice, LegQty;
    if path != [] && amount != 0.0 && path[0].symbol.name in book {
      var t := book[path[0].symbol.name];
      var out := LegAmount(path[0], t, amount);
      var rest := EvalLegs(path[1..], book, out);
      var filled := Fill(path[0], t, amount);
      EvalTwice(path[1..], book, out);
      SameLeg(path[0], filled, t, amount);
      assert ([filled] + rest.orders)[0] == filled && ([filled] + rest.orders)[1..] == rest.orders;
    }
  }

  lemma SameLeg(o: Order, p: Order, t: Ticker, amount: real)
    requires o.symbol == p.symbol && o.way == p.way
    ensures LegAmount(o, t, amount) == LegAmount(p, t, amount)
    ensures Fill(p, t, amount) == p.(price := Fill(o, t, amount).price, qty := Fill(o, t, amount).qty, kind := MARKET)
  {
    hide SymbolFilter.RoundQty;
  }

  lemma {:induction false} DescribeByTemplate(acc: string, p: Path, q: Path)
    requires Template(p) == Template(q)
    ensures DescribeFrom(acc, p) == DescribeFrom(acc, q)
    decreases p
  {
    assert |p| == |Template(p)| == |Template(q)| == |q|;
    if p != [] {
      assert Template(p)[0] == Template(q)[0];
      forall i | 0 <= i < |p| - 1 ensures Template(p[1..])[i] == Template(q[1..])[i] {
        assert Template(p)[i+1] == Template(q)[i+1];
      }
      DescribeByTemplate(if acc == "" then p[0].ToStr() else acc + " " + p[0].ToStr(), p[1..], q[1..]);
    }
  }

  lemma EvaluateTwice(path: Path, book: Book, balance: real)
    ensures EvaluatePath(EvaluatePath(path, book, balance).orders, book, balance) == EvaluatePath(path, book, balance)
  {
    hide EvalLegs;
    EvalTwice(path, book, RISK * balance);
    EvalKeepsTemplate(path, book, RISK * balance);
    DescribeByTemplate("", EvalLegs(path, book, RISK * balance).orders, path);
  }

  /** The outcome of the most recent evaluation of path i, if any update of the run touched it. */
  function LastOutcome(s: Strategy, updates: seq<Ticker>, i: nat): Option<Evaluated>
    requires i < |s.paths|
    decreases |updates|
  {
    if updates == [] then None
    else
      RunKeepsCount(s, updates[..|updates|-1]);
      var before, data := Run(s, updates[..|updates|-1]), updates[|updates|-1];
      if Touches(before.paths[i], data.symbol) then Some(StepOutcomes(before, data)[i])
      else LastOutcome(s, updates[..|updates|-1], i)
  }

  lemma RunKeepsCount(s: Strategy, updates: seq<Ticker>)
    ensures |Run(s, updates).paths| == |s.paths|
  {}

  /** Some update carries the name of a symbol on the path. */
  ghost predicate Updated(path: Path, updates: seq<Ticker>) {
    exists k :: 0 <= k < |updates| && Uses(path, updates[k].symbol)
  }

  lemma {:induction false} UpdatedOnceMore(path: Path, updates: seq<Ticker>)
    requires updates != []
    ensures Updated(path, updates) <==>
            Updated(path, updates[..|updates|-1]) || Uses(path, updates[|updates|-1].symbol)
  {
    var earlier := updates[..|updates|-1];
    if k :| 0 <= k < |updates| && Uses(path, updates[k].symbol) {
      assert k < |earlier| ==> earlier[k] == updates[k];
    }
    if k :| 0 <= k < |earlier| && Uses(path, earlier[k].symbol) {
      assert earlier[k] == updates[k];
    }
  }

  /** The names on a path are those of its template, so no update changes them. */
  lemma {:induction false} UsesByTemplate(p: Path, q: Path, name: string)
    requires Template(p) == Template(q)
    ensures Touches(p, name) <==> Uses(q, name)
  {
    assert |p| == |Template(p)| == |Template(q)| == |q|;
    forall j | 0 <= j < |p| ensures p[j].symbol.name == q[j].symbol.name {
      assert Template(p)[j] == Template(q)[j];
    }
  }

  /** Incremental agrees with full evaluation. After any run, a path on which some order's symbol has been updated holds
      exactly the prices and sizes a fresh evaluation on the current book would write, and its last outcome is the fresh
      one; a path with no updated symbol was never evaluated and is as it was. */
  lemma {:induction false} IncrementalIsFresh(s: Strategy, updates: seq<Ticker>, symbols: seq<Symbol>, i: nat)
    requires Ready(s, symbols) && i < |s.paths|
    ensures |Run(s, updates).paths| == |s.paths|
    ensures var final, last := Run(s, updates), LastOutcome(s, updates, i);
            if Updated(s.paths[i], updates) then
              && last == Some(EvaluatePath(final.paths[i], final.book, StartingBalance(s)))
              && last.value.orders == final.paths[i]
            else last == None && final.paths[i] == s.paths[i]
    decreases |updates|
  {
    RunKeepsCount(s, updates);
    if updates != [] {
      var earlier, data := updates[..|updates|-1], updates[|updates|-1];
      var before := Run(s, earlier);
      RunKeepsCount(s, earlier);
      RunKeepsReady(s, earlier, symbols);
      IncrementalIsFresh(s, earlier, symbols, i);
      CycleIsClosed(before.paths[i], symbols, s.start);
      FreshStep(before, data, i);
      UpdatedOnceMore(s.paths[i], updates);
      assert Templates(before.paths)[i] == Templates(s.paths)[i];
      UsesByTemplate(before.paths[i], s.paths[i], data.symbol);
    }
  }

  lemma {:induction false} FreshStep(before: Strategy, data: Ticker, i: nat)
    requires i < |before.paths|
    ensures var after, path := Step(before, data), before.paths[i];
            var balance := BalanceOf(before.balance, StartOf(path));
            if Touches(path, data.symbol) then
              StepOutcomes(before, data)[i] == EvaluatePath(after.paths[i], after.book, balance)
              && StepOutcomes(before, data)[i].orders == after.paths[i]
            else
              && after.paths[i] == path
              && EvaluatePath(path, after.book, balance) == EvaluatePath(path, before.book, balance)
  {
    var path := before.paths[i];
    var balance := BalanceOf(before.balance, StartOf(path));
    if Touches(path, data.symbol) {
      EvaluateTwice(path, NextBook(before, data), balance);
    } else {
      EvalIgnoresOthers(path, before.book, data, RISK * balance);
    }
  }

  /** Two paths with the same symbols and ways evaluate alike: same amount, same completed legs, same prices and sizes
      on them. */
  lemma {:induction false} EvalByTemplate(p: Path, q: Path, book: Book, amount: real)
    requires Template(p) == Template(q)
    ensures EvalLegs(p, book, amount).final == EvalLegs(q, book, amount).final
    ensures LegsDone(p, book, amount) == LegsDone(q, book, amount)
    ensures |EvalLegs(p, book, amount).orders| == |EvalLegs(q, book, amount).orders| == |p|
    ensures EvalLegs(p, book, amount).orders[..LegsDone(p, book, amount)]
            == EvalLegs(q, book, amount).orders[..LegsDone(p, book, amount)]
  {
    hide LegPrice, LegQty;
    assert |p| == |Template(p)| == |Template(q)| == |q|;
    if p != [] {
      assert Template(p)[0] == Template(q)[0];
      if amount != 0.0 && p[0].symbol.name in book {
        var t := book[p[0].symbol.name];
        var out := LegAmount(p[0], t, amount);
        forall i | 0 <= i < |p| - 1 ensures Template(p[1..])[i] == Template(q[1..])[i] {
          assert Template(p)[i+1] == Template(q)[i+1];
        }
        SameLeg(p[0], q[0], t, amount);
        EvalByTemplate(p[1..], q[1..], book, out);
        FillByTemplate(p[0], q[0], t, amount);
      }
    }
  }

  lemma FillByTemplate(o: Order, p: Order, t: Ticker, amount: real)
    requires o.symbol == p.symbol && o.way == p.way
    ensures Fill(o, t, amount) == Fill(p, t, amount)
  {}

  // ----- Signals over a run -----

  /** Every signal an update returns is the outcome of evaluating, on the new book, one of the paths through the
      updated symbol. */
  lemma {:induction false} SignalComesFromPath(s: Strategy, data: Ticker) returns (i: nat)
    requires StepSignal(s, data).Some?
    ensures i < |s.paths| && Touches(s.paths[i], data.symbol)
    ensures StepSignal(s, data)
            == EvaluatePath(s.paths[i], NextBook(s, data), BalanceOf(s.balance, StartOf(s.paths[i]))).signal
  {
    var signals := SignalsOf(StepOutcomes(s, data));
    LastIndexInRange(signals);
    i := LastIndex(signals);
  }

  /** Path i is touched by the update, quoted, and returns more than the balance on the new book. */
  ghost predicate Gainful(s: Strategy, data: Ticker, i: nat)
    requires i < |s.paths|
  {
    var path, book, balance := s.paths[i], s.book[data.symbol := data], StartingBalance(s);
    Uses(path, data.symbol) && Quoted(path, book) && balance < Flow(path, book, balance)
  }

  /** What a gainful path returns. */
  function FlowOf(s: Strategy, data: Ticker, i: nat): real
    requires i < |s.paths| && Quoted(s.paths[i], s.book[data.symbol := data])
  {
    Flow(s.paths[i], s.book[data.symbol := data], StartingBalance(s))
  }

  lemma {:induction false} SignalOfPath(s: Strategy, data: Ticker, symbols: seq<Symbol>, i: nat)
    requires Ready(s, symbols) && i < |s.paths|
    ensures var signal := SignalsOf(StepOutcomes(s, data))[i];
            && (signal.Some? <==> Gainful(s, data, i))
            && (signal.Some? ==> signal.value.pnl == FlowOf(s, data, i) - StartingBalance(s))
  {
    CycleIsClosed(s.paths[i], symbols, s.start);
    SignalIff(s.paths[i], NextBook(s, data), BalanceOf(s.balance, s.start));
  }

  lemma StepIsProfitable(s: Strategy, data: Ticker)
    ensures Profitable(SignalsOf(StepOutcomes(s, data)))
  {}

  /** An update returns nothing exactly when no path through its symbol is fully quoted and returns more than the
      balance sent. */
  lemma {:induction false} NoSignalIff(s: Strategy, data: Ticker, symbols: seq<Symbol>)
    requires Ready(s, symbols)
    ensures StepSignal(s, data).None? <==> forall i :: 0 <= i < |s.paths| ==> !Gainful(s, data, i)
  {
    var signals := SignalsOf(StepOutcomes(s, data));
    hide Ready, Gainful;
    forall i | 0 <= i < |s.paths| ensures signals[i].Some? <==> Gainful(s, data, i) {
      SignalOfPath(s, data, symbols, i);
    }
    StepIsProfitable(s, data);
    LoopPicksLast(signals);
  }

  /** No path through the updated symbol gives a signal of a larger pnl on the new book. */
  ghost predicate IsGreatest(s: Strategy, data: Ticker, best: Signal) {
    forall i :: 0 <= i < |s.paths| && StepOutcomes(s, data)[i].signal.Some? ==>
        StepOutcomes(s, data)[i].signal.value.pnl <= best.pnl
  }

  /** An update returns the signal of the last gainful path, and that signal is a greatest one exactly when no other
      gainful path returns more on the new book. */
  lemma {:induction false} UpdateReturnsGreatestIff(s: Strategy, data: Ticker, symbols: seq<Symbol>, last: nat)
    requires Ready(s, symbols)
    requires last < |s.paths| && Gainful(s, data, last) && forall i :: last < i < |s.paths| ==> !Gainful(s, data, i)
    ensures StepSignal(s, data) == StepOutcomes(s, data)[last].signal && StepSignal(s, data).Some?
    ensures StepSignal(s, data).value.pnl == FlowOf(s, data, last) - StartingBalance(s)
    ensures IsGreatest(s, data, StepSignal(s, data).value) <==>
            forall i :: 0 <= i < |s.paths| && Gainful(s, data, i) ==> FlowOf(s, data, i) <= FlowOf(s, data, last)
  {
    var signals := SignalsOf(StepOutcomes(s, data));
    hide Ready;
    forall i | 0 <= i < |s.paths|
      ensures signals[i].Some? <==> Gainful(s, data, i)
      ensures signals[i].Some? ==> signals[i].value.pnl == FlowOf(s, data, i) - StartingBalance(s)
    {
      SignalOfPath(s, data, symbols, i);
    }
    StepIsProfitable(s, data);
    LoopPicksLast(signals);
    assert IsLast(signals, last) && LastIndex(signals) == last;
    var best := StepSignal(s, data).value;
    assert IsGreatest(s, data, best) <==>
           forall i :: 0 <= i < |s.paths| && signals[i].Some? ==> signals[i].value.pnl <= best.pnl;
  }

  /** After every update there are asset values that the quotes of every path respect up to the fee; they may differ
      from update to update. */
  ghost predicate ConsistentRun(s: Strategy, updates: seq<Ticker>) {
    forall k :: 0 < k <= |updates| ==> exists v: Values :: ConsistentState(v, Run(s, updates[..k]))
  }

  ghost predicate ConsistentState(v: Values, s: Strategy) {
    forall i :: 0 <= i < |s.paths| ==> Consistent(v, s.paths[i], s.book, KEEP)
  }

  lemma {:induction false} ConsistentByTemplate(v: Values, p: Path, q: Path, book: Book, keep: real)
    requires Template(p) == Template(q) && Consistent(v, p, book, keep)
    ensures Consistent(v, q, book, keep)
  {}

  /** No update after which there are asset values consistent up to the fee ever signals. */
  lemma {:induction false} ConsistentStepIsSilent(s: Strategy, data: Ticker, symbols: seq<Symbol>, v: Values)
    requires Ready(s, symbols) && ConsistentState(v, Step(s, data))
    ensures StepSignal(s, data).None?
  {
    if StepSignal(s, data).Some? {
      var i := SignalComesFromPath(s, data);
      var path := s.paths[i];
      CycleIsClosed(path, symbols, s.start);
      StepKeepsTemplates(s, data);
      assert Templates(Step(s, data).paths)[i] == Templates(s.paths)[i];
      ConsistentByTemplate(v, Step(s, data).paths[i], path, NextBook(s, data), KEEP);
      NoSignalWhenConsistent(v, path, NextBook(s, data), BalanceOf(s.balance, s.start));
    }
  }

  /** Hence no signal ever appears over a run of books that are consistent up to the fee, however the values move. */
  lemma {:induction false} ConsistentRunIsSilent(s: Strategy, updates: seq<Ticker>, symbols: seq<Symbol>, k: nat)
    requires Ready(s, symbols) && ConsistentRun(s, updates) && k < |updates|
    ensures StepSignal(Run(s, updates[..k]), updates[k]).None?
  {
    hide Ready, Step, StepSignal, ConsistentState;
    RunKeepsReady(s, updates[..k], symbols);
    assert updates[..k+1] == updates[..k] + [updates[k]];
    RunStep(s, updates[..k], updates[k]);
    var v: Values :| ConsistentState(v, Run(s, updates[..k+1]));
    ConsistentStepIsSilent(Run(s, updates[..k]), updates[k], symbols, v);
  }

  /** Every signal of every run can be executed on any wallet holding the starting balance, and gains at least its
      pnl. */
  lemma {:induction false} RunSignalsAreExecutable(s: Strategy, updates: seq<Ticker>, data: Ticker,
      symbols: seq<Symbol>, w: Wallet)
    requires Ready(s, symbols)
    requires StartingBalance(s) <= Holding(w, s.start)
    requires forall a: string :: 0.0 <= Holding(w, a)
    ensures var signal := StepSignal(Run(s, updates), data);
            signal.Some? ==> signal.value.pnl > 0.0 && Executable(signal.value, w, s.start)
  {
    hide Executable;
    var now := Run(s, updates);
    if StepSignal(now, data).Some? {
      RunKeepsReady(s, updates, symbols);
      var i := SignalComesFromPath(now, data);
      CycleIsClosed(now.paths[i], symbols, s.start);
      SignalIsExecutable(now.paths[i], NextBook(now, data), BalanceOf(s.balance, s.start), w);
    }
  }

  /** One wallet over a run: the orders of each signal are executed on it as the signal appears. */
  function WalletAfter(s: Strategy, updates: seq<Ticker>, w: Wallet): Wallet {
    if updates == [] then w
    else
      var earlier, data := updates[..|updates|-1], updates[|updates|-1];
      var before, signal := WalletAfter(s, earlier, w), StepSignal(Run(s, earlier), data);
      if signal.Some? then Replay(before, signal.value.orders, |signal.value.orders|) else before
  }

  /** The pnls announced over a run. */
  function TotalPnl(s: Strategy, updates: seq<Ticker>): real {
    if updates == [] then 0.0
    else
      var earlier, data := updates[..|updates|-1], updates[|updates|-1];
      var signal := StepSignal(Run(s, earlier), data);
      TotalPnl(s, earlier) + (if signal.Some? then signal.value.pnl else 0.0)
  }

  /** No holding is negative, no other asset below what it was, and the starting asset has gained at least this much. */
  ghost predicate HasGained(w: Wallet, after: Wallet, start: string, gain: real) {
    && (forall a: string :: 0.0 <= Holding(after, a))
    && (forall a: string :: a != start ==> Holding(w, a) <= Holding(after, a))
    && Holding(w, start) + gain <= Holding(after, start)
  }

  lemma {:induction false} ExecutedGains(signal: Signal, w: Wallet, before: Wallet, start: string, gain: real)
    requires Executable(signal, before, start) && HasGained(w, before, start, gain)
    ensures HasGained(w, Replay(before, signal.orders, |signal.orders|), start, gain + signal.pnl)
  {
    hide Replay, Cost;
    var n, after := |signal.orders|, Replay(before, signal.orders, |signal.orders|);
    forall a: string
      ensures 0.0 <= Holding(after, a) && (a != start ==> Holding(w, a) <= Holding(after, a))
    {
      assert 0.0 <= Holding(Replay(before, signal.orders, n), a);
      assert a != start ==> Holding(before, a) <= Holding(Replay(before, signal.orders, n), a);
    }
  }

  /** All signals of a run can be executed one after another on one wallet that first holds the starting balance:
      never an overdraft within a signal, never a negative or lowered holding of another asset, and at least the sum
      of all pnls gained. */
  lemma {:induction false} RunIsExecutable(s: Strategy, updates: seq<Ticker>, symbols: seq<Symbol>, w: Wallet)
    requires Ready(s, symbols)
    requires StartingBalance(s) <= Holding(w, s.start)
    requires forall a: string :: 0.0 <= Holding(w, a)
    ensures 0.0 <= TotalPnl(s, updates) && HasGained(w, WalletAfter(s, updates, w), s.start, TotalPnl(s, updates))
    ensures forall k :: 0 <= k < |updates| && StepSignal(Run(s, updates[..k]), updates[k]).Some? ==>
              Executable(StepSignal(Run(s, updates[..k]), updates[k]).value, WalletAfter(s, updates[..k], w), s.start)
  {
    hide Executable, Ready, StepSignal, Run;
    if updates != [] {
      var earlier, data := updates[..|updates|-1], updates[|updates|-1];
      var before, signal := WalletAfter(s, earlier, w), StepSignal(Run(s, earlier), data);
      RunIsExecutable(s, earlier, symbols, w);
      RunSignalsAreExecutable(s, earlier, data, symbols, before);
      if signal.Some? {
        ExecutedGains(signal.value, w, before, s.start, TotalPnl(s, earlier));
      }
      forall k | 0 <= k < |updates| && StepSignal(Run(s, updates[..k]), updates[k]).Some?
        ensures Executable(StepSignal(Run(s, updates[..k]), updates[k]).value, WalletAfter(s, updates[..k], w), s.start)
      {
        if k < |earlier| {
          assert updates[..k] == earlier[..k] && updates[k] == earlier[k];
        } else {
          assert updates[..k] == earlier;
        }
      }
    }
  }
}
