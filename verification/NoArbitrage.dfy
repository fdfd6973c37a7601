/** When there is nothing to gain: consistent prices, and a path taken in both directions. */
module NoArbitrage {
  import opened Reals
  import opened Market
  import opened Evaluation
  import opened PathProperties

  /** Each order spends what the previous one returned. */
  ghost predicate Linked(path: Path) {
    forall i :: 0 < i < |path| ==> path[i].StartingAsset() == path[i-1].ResultingAsset()
  }

  /** A chain that ends on the asset it starts from. */
  ghost predicate Closed(path: Path) {
    path != [] && Linked(path) && path[|path|-1].ResultingAsset() == path[0].StartingAsset()
  }

  type Values = map<string, real>

  /** The assets have values which the quotes of the path respect up to a factor: with 1 the value of every base lies
      between its bid and its ask, with KEEP it may be outside by the fee. */
  ghost predicate Consistent(v: Values, path: Path, book: Book, keep: real) {
    forall i :: 0 <= i < |path| ==> ConsistentAt(v, path[i].symbol, book, keep)
  }

  ghost predicate ConsistentAt(v: Values, s: Symbol, book: Book, keep: real) {
    && s.base in v && s.quote in v && 0.0 < v[s.base] && 0.0 < v[s.quote]
    && (s.name in book ==> Spans(book[s.name], v[s.base], v[s.quote], keep))
  }

  /** Selling the base at the bid, or buying it at the ask, gains nothing in value once reduced by the factor. */
  ghost predicate Spans(t: Ticker, base: real, quote: real, keep: real) {
    t.bid * quote * keep <= base && base * keep <= t.ask * quote
  }

  lemma {:induction false} Quotient(x: real, base: real, quote: real)
    requires 0.0 < quote
    ensures x <= base / quote <==> x * quote <= base
    ensures base / quote <= x <==> base <= x * quote
  {
    var y := base / quote;
    DivMul(base, quote);
    if x <= y {
      MulMono(x, y, quote);
    } else {
      MulMono(y, x, quote);
      assert (x - y) * quote > 0.0;
    }
    if y <= x {
      MulMono(y, x, quote);
    } else {
      assert (y - x) * quote > 0.0;
    }
  }

  /** With the factor 1 the value of the base, in units of the quote, lies between bid and ask. */
  lemma {:induction false} SpansIs(t: Ticker, base: real, quote: real)
    requires 0.0 < quote
    ensures Spans(t, base, quote, 1.0) <==> t.bid <= base / quote <= t.ask
  {
    Quotient(t.bid, base, quote);
    Quotient(t.ask, base, quote);
  }

  /** A smaller factor asks for less. */
  lemma {:induction false} SpansWeakens(t: Ticker, base: real, quote: real, keep: real, less: real)
    requires 0.0 < base && 0.0 < quote && less <= keep && Spans(t, base, quote, keep)
    ensures Spans(t, base, quote, less)
  {
    MulNonNeg(t.bid, quote);
    MulMono(less, keep, t.bid * quote);
    MulMono(less, keep, base);
  }

  /** One unit traded at the quoted rate gains nothing in value once reduced by the factor. */
  lemma {:induction false} RateKeepsValue(v: Values, o: Order, t: Ticker, keep: real)
    requires o.way != HOLD && 0.0 < keep && o.symbol.base in v && o.symbol.quote in v
    requires 0.0 < v[o.symbol.base] && 0.0 < v[o.symbol.quote] && Spans(t, v[o.symbol.base], v[o.symbol.quote], keep)
    ensures Rate(o, t) * v[o.ResultingAsset()] * keep <= v[o.StartingAsset()]
  {
    if o.way == BUY {
      BuyRate(v[o.symbol.base], t.ask, v[o.symbol.quote], keep);
    }
  }

  /** One leg pays the fee in value, against the factor by which the prices may be off. */
  lemma {:induction false} LegLosesValue(v: Values, o: Order, book: Book, amount: real, keep: real)
    requires o.way != HOLD && o.symbol.filter.WellFormed() && 0.0 <= amount && 0.0 < keep
    requires ConsistentAt(v, o.symbol, book, keep) && o.symbol.name in book
    ensures LegAmount(o, TickerOf(o, book), amount) * v[o.ResultingAsset()] * keep
            <= amount * v[o.StartingAsset()] * KEEP
  {
    hide LegAmount, Rate, Spans;
    var t := TickerOf(o, book);
    LegBounds(o, t, amount);
    RateKeepsValue(v, o, t, keep);
    RateStep(LegAmount(o, t, amount), amount, Rate(o, t), v[o.ResultingAsset()], v[o.StartingAsset()], keep);
  }

  lemma BuyRate(base: real, ask: real, quote: real, keep: real)
    requires 0.0 < ask && 0.0 <= base && 0.0 < keep && base * keep <= ask * quote
    ensures (1.0 / ask) * base * keep <= quote
  {
    MulNonNeg(base, keep);
    DivMono(base * keep, ask * quote, ask, ask);
    assert (ask * quote) / ask == quote;
    DivMul(base * keep, ask);
  }

  lemma RateStep(out: real, amount: real, rate: real, value: real, paid: real, keep: real)
    requires 0.0 <= amount && 0.0 <= value && 0.0 < keep && out <= amount * rate * KEEP && rate * value * keep <= paid
    ensures out * value * keep <= amount * paid * KEEP
  {
    MulNonNeg(value, keep);
    MulMono(out, amount * rate * KEEP, value * keep);
    MulNonNeg(amount, KEEP);
    MulMono(rate * value * keep, paid, amount * KEEP);
  }

  function Power(x: real, n: nat): real {
    if n == 0 then 1.0 else x * Power(x, n - 1)
  }

  lemma {:induction false} PowerMono(x: real, y: real, n: nat)
    requires 0.0 < x <= y
    ensures 0.0 < Power(x, n) <= Power(y, n)
  {
    if n > 0 {
      PowerMono(x, y, n - 1);
      MulMono2(x, y, Power(x, n - 1), Power(y, n - 1));
    }
  }

  /** What the fees of some legs leave of an amount. */
  function Fees(legs: nat): real {
    Power(KEEP, legs)
  }

  lemma {:induction false} FeesShrink(legs: nat)
    ensures 0.0 < Fees(legs) <= 1.0
    ensures 0 < legs ==> Fees(legs) < 1.0
  {
    if legs > 0 {
      FeesShrink(legs - 1);
    }
  }

  lemma LinkedTail(path: Path)
    requires Linked(path) && path != []
    ensures Linked(path[1..])
    ensures |path| > 1 ==> path[1..][0].StartingAsset() == path[0].ResultingAsset()
  {}

  /** The value of an amount, reduced by a factor for each of some legs. */
  function Worth(amount: real, value: real, factor: real, legs: nat): real {
    amount * value * Power(factor, legs)
  }

  lemma {:induction false} WorthStep(final: real, last: real, out: real, value: real, amount: real, paid: real,
      keep: real, legs: nat)
    requires 0.0 < keep && Worth(final, last, keep, legs) <= Worth(out, value, KEEP, legs)
    requires out * value * keep <= amount * paid * KEEP
    ensures Worth(final, last, keep, legs + 1) <= Worth(amount, paid, KEEP, legs + 1)
  {
    var p, q := Power(keep, legs), Power(KEEP, legs);
    PowerMono(KEEP, KEEP, legs);
    MulMono(final * last * p, out * value * q, keep);
    MulMono(out * value * keep, amount * paid * KEEP, q);
    Regroup(final * last, p, keep);
    Regroup(out * value, q, keep);
    Regroup(amount * paid, q, KEEP);
  }

  lemma Regroup(a: real, p: real, k: real)
    ensures a * p * k == a * (k * p) == a * k * p
  {}

  lemma ConsistentTail(v: Values, path: Path, book: Book, keep: real)
    requires path != [] && Consistent(v, path, book, keep)
    ensures Consistent(v, path[1..], book, keep)
    ensures ConsistentAt(v, path[0].symbol, book, keep) && ConsistentAt(v, path[|path|-1].symbol, book, keep)
  {}

  lemma {:induction false} ConsistentWeakens(v: Values, path: Path, book: Book, keep: real, less: real)
    requires Consistent(v, path, book, keep) && less <= keep
    ensures Consistent(v, path, book, less)
  {
    hide Spans;
    forall i | 0 <= i < |path| ensures ConsistentAt(v, path[i].symbol, book, less) {
      var s := path[i].symbol;
      assert ConsistentAt(v, s, book, keep);
      if s.name in book {
        SpansWeakens(book[s.name], v[s.base], v[s.quote], keep, less);
      }
    }
  }

  /** The value at the end of a chain, reduced once per leg by the factor up to which prices are consistent, is at
      most the value at its start less the fee of every leg. */
  lemma {:induction false} FlowLosesValue(v: Values, path: Path, book: Book, amount: real, keep: real)
    requires path != [] && Linked(path) && Tradable(path) && Quoted(path, book) && Consistent(v, path, book, keep)
    requires 0.0 <= amount && 0.0 < keep
    ensures ConsistentAt(v, path[0].symbol, book, keep) && ConsistentAt(v, path[|path|-1].symbol, book, keep)
    ensures Worth(Flow(path, book, amount), v[path[|path|-1].ResultingAsset()], keep, |path|)
            <= Worth(amount, v[path[0].StartingAsset()], KEEP, |path|)
  {
    hide LegAmount, Rate, Spans, Worth, Consistent;
    var o, rest := path[0], path[1..];
    var out := LegAmount(o, TickerOf(o, book), amount);
    ConsistentTail(v, path, book, keep);
    var paid, value, last := v[o.StartingAsset()], v[o.ResultingAsset()], v[path[|path|-1].ResultingAsset()];
    LegLosesValue(v, o, book, amount, keep);
    if rest == [] {
      assert Flow(rest, book, out) == out;
      WorthNow(out, value, keep);
    } else {
      LegBounds(o, TickerOf(o, book), amount);
      LinkedTail(path);
      FlowLosesValue(v, rest, book, out, keep);
      assert rest[|rest|-1] == path[|path|-1];
    }
    WorthStep(Flow(path, book, amount), last, out, value, amount, paid, keep, |rest|);
  }

  /** No false arbitrage: if there are asset values that the prices respect up to the fee, no cycle signals, at any
      balance. */
  lemma {:induction false} NoSignalWhenConsistent(v: Values, path: Path, book: Book, balance: real)
    requires Closed(path) && Tradable(path) && Consistent(v, path, book, KEEP) && 0.0 <= balance
    ensures EvaluatePath(path, book, balance).signal.None?
  {
    hide Spans, EvaluatePath, Flow, Worth;
    SignalIff(path, book, balance);
    if Quoted(path, book) {
      FlowLosesValue(v, path, book, balance, KEEP);
      NoGain(Flow(path, book, balance), balance, v[path[0].StartingAsset()], |path|);
    }
  }

  lemma WorthNow(amount: real, value: real, factor: real)
    ensures Worth(amount, value, factor, 0) == Worth(amount, value, KEEP, 0) == amount * value
  {}

  lemma {:induction false} NoGain(final: real, amount: real, value: real, legs: nat)
    requires Worth(final, value, KEEP, legs) <= Worth(amount, value, KEEP, legs) && 0.0 < value
    ensures final <= amount
  {
    PowerMono(KEEP, KEEP, legs);
    MulCancel(final * value, amount * value, Power(KEEP, legs));
    MulCancel(final, amount, value);
  }

  // ----- A path and its reverse -----

  lemma {:induction false} ProductOfConcat(p: Path, q: Path, book: Book)
    requires Quoted(p, book) && Quoted(q, book)
    ensures Quoted(p + q, book) && Product(p + q, book) == Product(p, book) * Product(q, book)
  {
    hide Rate;
    if p == [] {
      assert p + q == q;
    } else {
      assert (p + q)[0] == p[0] && (p + q)[1..] == p[1..] + q;
      ProductOfConcat(p[1..], q, book);
      MulAssoc(Rate(p[0], TickerOf(p[0], book)) * KEEP, Product(p[1..], book), Product(q, book));
    }
  }

  function BidOverAsk(t: Ticker): real {
    t.bid / t.ask
  }

  /** The two directions of one leg return bid / ask. */
  lemma LegBothWays(o: Order, t: Ticker)
    requires o.way != HOLD
    ensures Rate(o, t) * Rate(Flip(o), t) == BidOverAsk(t)
  {
    DivMul(t.bid, t.ask);
  }

  ghost predicate NotCrossed(path: Path, book: Book) {
    forall i :: 0 <= i < |path| && path[i].symbol.name in book ==>
        book[path[i].symbol.name].bid <= book[path[i].symbol.name].ask
  }

  /** The product over the legs of bid over ask. */
  function SpreadProduct(path: Path, book: Book): real
    requires Quoted(path, book)
  {
    if path == [] then 1.0 else BidOverAsk(TickerOf(path[0], book)) * SpreadProduct(path[1..], book)
  }

  lemma {:induction false} SpreadAtMostOne(path: Path, book: Book)
    requires Quoted(path, book) && NotCrossed(path, book)
    ensures 0.0 <= SpreadProduct(path, book) <= 1.0
  {
    if path != [] {
      var t := TickerOf(path[0], book);
      SpreadAtMostOne(path[1..], book);
      DivMono(0.0, t.bid, t.ask, t.ask);
      DivMono(t.bid, t.ask, t.ask, t.ask);
      MulMono2(t.bid / t.ask, 1.0, SpreadProduct(path[1..], book), 1.0);
    }
  }

  lemma BothWaysStep(r: real, s: real, p: real, q: real, there: real, back: real, rest: real, spread: real, legs: nat)
    requires p * q == rest * Fees(2 * legs) && spread == r * s * rest
    requires there == r * KEEP * p && back == q * (s * KEEP)
    ensures there * back == spread * Fees(2 * (legs + 1))
  {
    var fees := Fees(2 * legs);
    assert Power(KEEP, 2 * legs + 2) == KEEP * Power(KEEP, 2 * legs + 1);
    assert Fees(2 * legs + 2) == fees * KEEP * KEEP;
    assert there * back == (r * s) * (p * q) * (KEEP * KEEP);
    MulAssoc(spread, fees, KEEP * KEEP);
  }

  lemma ProductOfLast(p: Path, o: Order, book: Book)
    requires Quoted(p, book) && o.symbol.name in book
    ensures Quoted(p + [o], book) && Product(p + [o], book) == Product(p, book) * (Rate(o, TickerOf(o, book)) * KEEP)
  {
    hide Rate;
    ProductOfConcat(p, [o], book);
  }

  lemma FirstLeg(p: Path, book: Book)
    requires p != [] && Quoted(p, book)
    ensures Product(p, book) == Rate(p[0], TickerOf(p[0], book)) * KEEP * Product(p[1..], book)
    ensures SpreadProduct(p, book) == BidOverAsk(TickerOf(p[0], book)) * SpreadProduct(p[1..], book)
  {
    hide Rate, BidOverAsk;
  }

  ghost predicate MeetsSpread(p: Path, r: Path, book: Book) {
    Quoted(p, book) && Quoted(r, book) && Product(p, book) * Product(r, book) == SpreadProduct(p, book) * Fees(2 * |p|)
  }

  lemma {:induction false} OneLegMore(p: Path, back: Path, book: Book)
    requires p != [] && p[0].way != HOLD && Quoted(p, book) && MeetsSpread(p[1..], back, book)
    ensures MeetsSpread(p, back + [Flip(p[0])], book)
  {
    hide Rate, Fees, BidOverAsk, Product, SpreadProduct;
    var o, rest, whole := p[0], p[1..], back + [Flip(p[0])];
    var t := TickerOf(o, book);
    assert 2 * (|rest| + 1) == 2 * |p|;
    LegBothWays(o, t);
    FirstLeg(p, book);
    ProductOfLast(back, Flip(o), book);
    BothWaysStep(Rate(o, t), Rate(Flip(o), t), Product(rest, book), Product(back, book), Product(p, book),
                 Product(whole, book), SpreadProduct(rest, book), SpreadProduct(p, book), |rest|);
  }

  lemma {:induction false} ThereAndBack(p: Path, book: Book)
    requires Tradable(p) && Quoted(p, book)
    ensures MeetsSpread(p, Reverse(p), book)
  {
    if p == [] {
      assert Reverse(p) == [];
    } else {
      hide MeetsSpread;
      ThereAndBack(p[1..], book);
      OneLegMore(p, Reverse(p[1..]), book);
      assert Reverse(p) == Reverse(p[1..]) + [Flip(p[0])];
    }
  }

  /** There and back: the rate products of a path and of its reverse multiply to the product of bid over ask along the
      path, times two fees for each of the legs; at most those fees on an uncrossed book. */
  lemma {:induction false} ProductBothWays(p: Path, book: Book)
    requires Tradable(p) && Quoted(p, book)
    ensures Quoted(Reverse(p), book)
    ensures Product(p, book) * Product(Reverse(p), book) == SpreadProduct(p, book) * Fees(2 * |p|)
    ensures NotCrossed(p, book) ==> Product(p, book) * Product(Reverse(p), book) <= Fees(2 * |p|) <= 1.0
  {
    hide Product, Reverse, SpreadProduct;
    ThereAndBack(p, book);
    FeesShrink(2 * |p|);
    if NotCrossed(p, book) {
      SpreadAtMostOne(p, book);
      MulMono(SpreadProduct(p, book), 1.0, Fees(2 * |p|));
    }
  }

  lemma ReverseKeepsTradable(p: Path)
    requires Tradable(p)
    ensures Tradable(Reverse(p))
  {}

  /** A path and its reverse never signal on the same uncrossed book, whatever the two balances. */
  lemma {:induction false} NoSignalBothWays(p: Path, book: Book, balance: real, other: real)
    requires Tradable(p) && NotCrossed(p, book) && 0.0 <= balance && 0.0 <= other
    ensures EvaluatePath(p, book, balance).signal.None? || EvaluatePath(Reverse(p), book, other).signal.None?
  {
    if EvaluatePath(p, book, balance).signal.Some? && EvaluatePath(Reverse(p), book, other).signal.Some? {
      ReverseKeepsTradable(p);
      SignalNeedsProduct(p, book, balance);
      ProductBothWays(p, book);
      SignalNeedsProduct(Reverse(p), book, other);
    }
  }
}
