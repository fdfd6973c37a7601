/** Exchange filters on prices and quantities: rounding to the tick or lot grid, clamping to the
    bounds, and validity as a fixed point of rounding. */
module SymbolFilters {
  import opened Reals

  /** A maximum; the exchange writes 0 for "no maximum". */
  datatype Bound = Unbounded | AtMost(limit: real)

  function BoundOf(max: real): Bound {
    if max == 0.0 then Unbounded else AtMost(max)
  }

  function MinBound(a: Bound, b: Bound): Bound {
    if a.Unbounded? then b
    else if b.Unbounded? then a
    else AtMost(if b.limit < a.limit then b.limit else a.limit)
  }

  predicate Within(x: real, b: Bound) {
    b.AtMost? ==> x <= b.limit
  }

  ghost predicate BoundOnGrid(b: Bound, step: real) {
    b.AtMost? ==> OnGrid(b.limit, step)
  }

  function Max(a: real, b: real): real {
    if a < b then b else a
  }

  /** std::clamp */
  function Clamp(x: real, lo: real, hi: Bound): real {
    if x < lo then lo else if hi.AtMost? && hi.limit < x then hi.limit else x
  }

  function RoundToNearest(value: real, stepSize: real, roundUp: bool): real {
    if stepSize == 0.0 then value
    else
      var remainder := Fmod(value, stepSize);
      if remainder == 0.0 then value
      else if roundUp then value - remainder + stepSize else value - remainder
  }

  datatype PriceFilter = PriceFilter(minPrice: real, maxPrice: real, tickSize: real)
  datatype LotSizeFilter = LotSizeFilter(minQty: real, maxQty: real, stepSize: real) {
    /** What a LOT_SIZE or MARKET_LOT_SIZE filter of the exchange demands of an order. */
    ghost predicate Admits(q: real) {
      minQty <= q && Within(q, BoundOf(maxQty)) && OnGrid(q, stepSize)
    }
  }

  /** priceFilter, lotSizeFilter and marketLotSizeFilter; the notional and position filters play no part in rounding. */
  datatype SymbolFilter = SymbolFilter(price: PriceFilter, lot: LotSizeFilter, marketLot: LotSizeFilter) {

    /** What the exchange publishes: no negative number, and a price range that is not empty. */
    ghost predicate WellFormed() {
      && 0.0 <= lot.stepSize && 0.0 <= marketLot.stepSize && 0.0 <= price.tickSize
      && 0.0 <= lot.maxQty && 0.0 <= marketLot.maxQty
      && 0.0 <= price.minPrice && Within(price.minPrice, BoundOf(price.maxPrice))
    }

    function Step(): real {
      Max(marketLot.stepSize, lot.stepSize)
    }

    /** roundQty computes this minimum and makes no use of it. */
    function MinQty(): real {
      Max(marketLot.minQty, lot.minQty)
    }

    function MaxQty(): Bound {
      MinBound(BoundOf(marketLot.maxQty), BoundOf(lot.maxQty))
    }

    function RoundPrice(p: real, roundUp: bool := false): real {
      Clamp(RoundToNearest(p, price.tickSize, roundUp), price.minPrice, BoundOf(price.maxPrice))
    }

    function RoundQty(qty: real, roundUp: bool := false): real {
      Clamp(RoundToNearest(qty, Step(), roundUp), 0.0, MaxQty())
    }

    predicate ValidatePrice(p: real) {
      p == RoundPrice(p)
    }

    predicate ValidateQuantity(q: real) {
      q == RoundQty(q)
    }

    /** The order's size meets both lot filters of the exchange. */
    ghost predicate MeetsLotFilters(q: real) {
      lot.Admits(q) && marketLot.Admits(q)
    }

    ghost predicate OnBothGrids(q: real) {
      OnGrid(q, lot.stepSize) && OnGrid(q, marketLot.stepSize)
    }

    predicate WithinMaxima(q: real) {
      (lot.maxQty == 0.0 || q <= lot.maxQty) && (marketLot.maxQty == 0.0 || q <= marketLot.maxQty)
    }

    /** One step is a whole number of the other, or one of them is absent. */
    ghost predicate StepsAgree() {
      Divides(lot.stepSize, marketLot.stepSize) || Divides(marketLot.stepSize, lot.stepSize)
    }
  }

  /** r is the greatest whole number of steps (any quantity at all when the step is 0) that exceeds neither q nor the
      bound. */
  ghost predicate GreatestLot(r: real, q: real, step: real, b: Bound) {
    && OnGrid(r, step) && r <= q && Within(r, b)
    && forall x: real :: OnGrid(x, step) && x <= q && Within(x, b) ==> x <= r
  }

  /** r is the least whole number of steps that is not below q. */
  ghost predicate LeastLot(r: real, q: real, step: real) {
    && OnGrid(r, step) && q <= r
    && forall x: real :: OnGrid(x, step) && q <= x ==> r <= x
  }

  /** Rounding down a non-negative value gives the greatest grid point not above it; rounding up the least not below
      it. */
  lemma RoundToNearestIsNeighbour(v: real, step: real)
    requires 0.0 <= v && 0.0 <= step
    ensures 0.0 <= RoundToNearest(v, step, false)
    ensures GreatestLot(RoundToNearest(v, step, false), v, step, Unbounded)
    ensures LeastLot(RoundToNearest(v, step, true), v, step)
    ensures step == 0.0 || v - RoundToNearest(v, step, false) < step
  {
    if step > 0.0 {
      FmodOfNonNegative(v, step);
      var k := (v / step).Floor;
      LotsMono(0, k, step);
      assert Lots(k + 1, step) == Lots(k, step) + step;
      var down, up := RoundToNearest(v, step, false), RoundToNearest(v, step, true);
      assert down == Lots(k, step);
      forall x: real | OnGrid(x, step) && x <= v ensures x <= down {
        var m: int :| x == Lots(m, step);
        LotsMono(k + 1, m, step);
        LotsMono(m, k, step);
      }
      assert up == if v == down then down else Lots(k + 1, step);
      forall x: real | OnGrid(x, step) && v <= x ensures up <= x {
        var m: int :| x == Lots(m, step);
        LotsMono(k, m, step);
        LotsMono(k + 1, m, step);
      }
    }
  }

  /** Below zero the remainder is negative: rounding down moves toward zero, and rounding up ends one step above that
      unless the value is on the grid. */
  lemma {:induction false} RoundToNearestOfNegative(v: real, step: real)
    requires v < 0.0 < step
    ensures RoundToNearest(v, step, false) == -RoundToNearest(-v, step, false)
    ensures LeastLot(RoundToNearest(v, step, false), v, step)
    ensures RoundToNearest(v, step, true) == RoundToNearest(v, step, false) + (if OnGrid(v, step) then 0.0 else step)
  {
    RoundToNearestIsNeighbour(-v, step);
    FmodOfOpposite(v, step);
    var r := RoundToNearest(-v, step, false);
    OppositeOnGrid(r, step);
    OppositeOnGrid(v, step);
    forall x: real | OnGrid(x, step) && v <= x ensures -r <= x {
      OppositeOnGrid(x, step);
    }
  }

  lemma RoundDownMonotone(v: real, w: real, step: real)
    requires 0.0 <= v <= w && 0.0 <= step
    ensures RoundToNearest(v, step, false) <= RoundToNearest(w, step, false)
  {
    RoundToNearestIsNeighbour(v, step);
    RoundToNearestIsNeighbour(w, step);
  }

  /** A grid point rounds down to itself. */
  lemma RoundDownFixesGrid(v: real, step: real)
    requires 0.0 <= v && 0.0 <= step
    ensures RoundToNearest(v, step, false) == v <==> OnGrid(v, step)
  {
    RoundToNearestIsNeighbour(v, step);
  }

  /** Rounding a quantity down never increases it, never leaves the range and loses less than one lot unless the
      maximum cuts it. */
  lemma RoundQtyBounds(f: SymbolFilter, q: real)
    requires f.WellFormed() && 0.0 <= q
    ensures 0.0 <= f.RoundQty(q) <= q && Within(f.RoundQty(q), f.MaxQty())
    ensures Within(RoundToNearest(q, f.Step(), false), f.MaxQty()) ==> q - f.Step() <= f.RoundQty(q)
    ensures f.RoundQty(0.0) == 0.0
  {
    RoundToNearestIsNeighbour(q, f.Step());
    RoundToNearestIsNeighbour(0.0, f.Step());
  }

  lemma RoundQtyMonotone(f: SymbolFilter, p: real, q: real)
    requires f.WellFormed() && 0.0 <= p <= q
    ensures f.RoundQty(p) <= f.RoundQty(q)
  {
    RoundDownMonotone(p, q, f.Step());
  }

  /** g is the neighbour of x on the grid of whole steps: below, or above when rounding up. */
  ghost predicate Neighbour(g: real, x: real, step: real, roundUp: bool) {
    if roundUp then LeastLot(g, x, step) else GreatestLot(g, x, step, Unbounded)
  }

  /** x brought into the range from lo to b, given that the range is not empty. */
  ghost predicate Nearest(r: real, x: real, lo: real, b: Bound) {
    && lo <= r && Within(r, b)
    && (lo <= x && Within(x, b) ==> r == x) && (x < lo ==> r == lo) && (!Within(x, b) ==> r == b.limit)
  }

  /** In both directions, prices and quantities are rounded to their neighbour on the grid, then brought into range. */
  lemma RoundingIs(f: SymbolFilter, x: real, roundUp: bool, g: real)
    requires f.WellFormed() && 0.0 <= x
    ensures Neighbour(g, x, f.Step(), roundUp) ==> Nearest(f.RoundQty(x, roundUp), g, 0.0, f.MaxQty())
    ensures Neighbour(g, x, f.price.tickSize, roundUp) ==>
            Nearest(f.RoundPrice(x, roundUp), g, f.price.minPrice, BoundOf(f.price.maxPrice))
  {
    RoundToNearestIsNeighbour(x, f.Step());
    RoundToNearestIsNeighbour(x, f.price.tickSize);
    if Neighbour(g, x, f.Step(), roundUp) {
      assert g == RoundToNearest(x, f.Step(), roundUp);
    }
    if Neighbour(g, x, f.price.tickSize, roundUp) {
      assert g == RoundToNearest(x, f.price.tickSize, roundUp);
    }
  }

  /** With the maximum on the grid (or absent) RoundQty is the greatest admissible lot, for every quantity, and is
      idempotent. */
  lemma RoundQtyIsGreatestLot(f: SymbolFilter, q: real)
    requires f.WellFormed() && 0.0 <= q && BoundOnGrid(f.MaxQty(), f.Step())
    ensures GreatestLot(f.RoundQty(q), q, f.Step(), f.MaxQty())
    ensures f.ValidateQuantity(f.RoundQty(q))
  {
    RoundToNearestIsNeighbour(q, f.Step());
    RoundQtyBounds(f, q);
    RoundDownFixesGrid(f.RoundQty(q), f.Step());
  }

  /** For every maximum: the rounded quantity is on the grid, and is accepted by ValidateQuantity,
      exactly when the clamp did not fire or the maximum itself is a whole number of lots. */
  lemma RoundQtyAcceptedIff(f: SymbolFilter, q: real)
    requires f.WellFormed() && 0.0 <= q
    ensures f.ValidateQuantity(f.RoundQty(q)) <==>
            Within(RoundToNearest(q, f.Step(), false), f.MaxQty()) || BoundOnGrid(f.MaxQty(), f.Step())
    ensures f.ValidateQuantity(f.RoundQty(q)) <==> OnGrid(f.RoundQty(q), f.Step())
  {
    RoundToNearestIsNeighbour(q, f.Step());
    RoundQtyBounds(f, q);
    ValidateQuantityIff(f, f.RoundQty(q));
  }

  /** A maximum of 5 with lots of 2: 7 is rounded to 5, which the same filter rejects. */
  lemma RoundQtyCanLeaveTheGrid()
    ensures var f := SymbolFilter(PriceFilter(0.0, 0.0, 0.0), LotSizeFilter(0.0, 5.0, 2.0),
            LotSizeFilter(0.0, 0.0, 0.0));
            f.WellFormed() && f.RoundQty(7.0) == 5.0 && !f.ValidateQuantity(f.RoundQty(7.0))
  {}

  /** ValidateQuantity accepts exactly the quantities in [0, max] that are whole numbers of the larger step, the maximum
      being the smaller of those given. */
  lemma ValidateQuantityIff(f: SymbolFilter, q: real)
    requires f.WellFormed()
    ensures Within(q, f.MaxQty()) <==> f.WithinMaxima(q)
    ensures f.ValidateQuantity(q) <==>
            && 0.0 <= q && f.WithinMaxima(q)
            && OnGrid(q, if f.lot.stepSize < f.marketLot.stepSize then f.marketLot.stepSize else f.lot.stepSize)
    ensures f.ValidateQuantity(q) <==> 0.0 <= q && Within(q, f.MaxQty()) && OnGrid(q, f.Step())
  {
    if 0.0 <= q {
      RoundToNearestIsNeighbour(q, f.Step());
      RoundDownFixesGrid(q, f.Step());
    }
  }

  /** ValidatePrice accepts the prices in range on the tick grid, and also the minimum price when that is off the
      grid. */
  lemma ValidatePriceIff(f: SymbolFilter, p: real)
    requires f.WellFormed()
    ensures f.ValidatePrice(p) <==>
            f.price.minPrice <= p && (f.price.maxPrice == 0.0 || p <= f.price.maxPrice)
            && (OnGrid(p, f.price.tickSize) || p == f.price.minPrice)
  {
    if 0.0 <= p {
      RoundToNearestIsNeighbour(p, f.price.tickSize);
      RoundDownFixesGrid(p, f.price.tickSize);
    }
  }

  /** With ticks of 1, a minimum of 1.5 is accepted although it is no whole number of ticks. */
  lemma OffGridMinimumIsValid()
    ensures var f := SymbolFilter(PriceFilter(1.5, 0.0, 1.0), LotSizeFilter(0.0, 0.0, 0.0),
            LotSizeFilter(0.0, 0.0, 0.0));
            f.WellFormed() && f.ValidatePrice(1.5) && !OnGrid(1.5, f.price.tickSize)
  {}

  /** s is a whole number of steps t. */
  ghost predicate Divides(t: real, s: real) {
    exists m: nat :: s == Lots(m, t)
  }

  /** Multiples of a multiple are multiples. */
  lemma GridRefines(q: real, t: real, s: real)
    requires Divides(t, s) && 0.0 < s && OnGrid(q, s)
    ensures OnGrid(q, t)
  {
    var m: nat :| s == Lots(m, t);
    var k: int :| q == Lots(k, s);
    MulAssoc(k as real, m as real, t);
    assert (k as real) * (m as real) == (k * m) as real;
    assert q == Lots(k * m, t);
  }

  lemma BothGridsOfStep(f: SymbolFilter, r: real)
    requires f.WellFormed() && f.StepsAgree() && OnGrid(r, f.Step())
    ensures f.OnBothGrids(r)
  {
    if 0.0 < f.lot.stepSize && 0.0 < f.marketLot.stepSize {
      StepIsMultipleOfBoth(f);
      GridRefines(r, f.lot.stepSize, f.Step());
      GridRefines(r, f.marketLot.stepSize, f.Step());
    }
  }

  /** If the steps agree and a maximum is on both grids, the rounded quantity is the greatest that is on the lot grid
      and on the market lot grid, exceeds neither maximum, and is not above the quantity. */
  lemma {:induction false} RoundQtyIsGreatestOnBothGrids(f: SymbolFilter, q: real)
    requires f.WellFormed() && f.StepsAgree() && 0.0 <= q
    requires f.MaxQty().AtMost? ==> f.OnBothGrids(f.MaxQty().limit)
    ensures var r := f.RoundQty(q);
            && 0.0 <= r <= q && f.OnBothGrids(r) && f.WithinMaxima(r)
            && forall x: real :: f.OnBothGrids(x) && x <= q && f.WithinMaxima(x) ==> x <= r
  {
    var r := f.RoundQty(q);
    RoundQtyIsGreatestLot(f, q);
    RoundQtyBounds(f, q);
    BothGridsOfStep(f, r);
    ValidateQuantityIff(f, r);
    forall x: real | f.OnBothGrids(x) && x <= q && f.WithinMaxima(x) ensures x <= r {
      ValidateQuantityIff(f, x);
    }
  }

  lemma OneStep(f: SymbolFilter)
    requires f.WellFormed() && f.OnBothGrids(f.Step())
    ensures f.StepsAgree()
  {
    if 0.0 < f.lot.stepSize && 0.0 < f.marketLot.stepSize {
      PositiveMultiple(f.Step(), f.lot.stepSize);
      PositiveMultiple(f.Step(), f.marketLot.stepSize);
    } else {
      assert f.lot.stepSize == 0.0 ==> f.lot.stepSize == Lots(0, f.marketLot.stepSize);
      assert f.marketLot.stepSize == 0.0 ==> f.marketLot.stepSize == Lots(0, f.lot.stepSize);
    }
  }

  lemma StepOnGrid(s: real)
    ensures OnGrid(s, s)
  {
    assert s == Lots(1, s);
  }

  /** Below one combined step only 0 is a whole number of steps. */
  lemma ZeroBelowStep(f: SymbolFilter, r: real)
    requires f.WellFormed() && 0.0 <= r && OnGrid(r, f.Step()) && Within(r, f.MaxQty()) && !Within(f.Step(), f.MaxQty())
    ensures r == 0.0 && f.OnBothGrids(r)
  {
    var k: int :| r == Lots(k, f.Step());
    LotsMono(1, k, f.Step());
    LotsMono(0, k, f.Step());
    assert k == 0 && r == Lots(0, f.lot.stepSize) && r == Lots(0, f.marketLot.stepSize);
  }

  /** The combined lot is the larger of the two steps, and an absent step is 0. Every rounded quantity lies on the lot
      grid and on the market lot grid exactly when a maximum, if there is one, is on both grids, and one step is a
      whole number of the other unless the maximum leaves no room for a single combined step. */
  lemma {:induction false} RoundQtyOnBothGridsIff(f: SymbolFilter)
    requires f.WellFormed()
    ensures (forall q: real :: 0.0 <= q ==> f.OnBothGrids(f.RoundQty(q)))
            <==> (f.MaxQty().AtMost? ==> f.OnBothGrids(f.MaxQty().limit))
                 && (Within(f.Step(), f.MaxQty()) ==> f.StepsAgree())
  {
    var s, max := f.Step(), f.MaxQty();
    assert 0.0 <= s && (max.AtMost? ==> 0.0 <= max.limit);
    hide SymbolFilter.StepsAgree, SymbolFilter.OnBothGrids, SymbolFilter.Step, SymbolFilter.MaxQty, OnGrid;
    if forall q: real :: 0.0 <= q ==> f.OnBothGrids(f.RoundQty(q)) {
      StepOnGrid(s);
      RoundDownFixesGrid(s, s);
      if Within(s, max) {
        assert f.RoundQty(s) == s;
        OneStep(f);
      }
      if max.AtMost? {
        RoundToNearestIsNeighbour(max.limit + s, s);
        assert f.RoundQty(max.limit + s) == max.limit;
      }
    }
    if (max.AtMost? ==> f.OnBothGrids(max.limit)) && (Within(s, max) ==> f.StepsAgree()) {
      forall q: real | 0.0 <= q ensures f.OnBothGrids(f.RoundQty(q)) {
        RoundToNearestIsNeighbour(q, s);
        var g := RoundToNearest(q, s, false);
        if Within(g, max) {
          if Within(s, max) {
            BothGridsOfStep(f, g);
          } else {
            ZeroBelowStep(f, g);
          }
        }
      }
    }
  }

  lemma StepIsMultipleOfBoth(f: SymbolFilter)
    requires 0.0 < f.lot.stepSize && 0.0 < f.marketLot.stepSize
    requires Divides(f.lot.stepSize, f.marketLot.stepSize) || Divides(f.marketLot.stepSize, f.lot.stepSize)
    ensures Divides(f.lot.stepSize, f.Step()) && Divides(f.marketLot.stepSize, f.Step())
  {
    var a, b := f.lot.stepSize, f.marketLot.stepSize;
    assert a == Lots(1, a) && b == Lots(1, b);
    if b <= a && Divides(a, b) {
      var m: nat :| b == Lots(m, a);
      LotsMono(m, 1, a);
      LotsMono(1, m, a);
      assert m == 0 || b == a;
    }
    if a <= b && Divides(b, a) {
      var m: nat :| a == Lots(m, b);
      LotsMono(m, 1, b);
      LotsMono(1, m, b);
      assert m == 0 || b == a;
    }
  }

  lemma PositiveMultiple(s: real, t: real)
    requires 0.0 < s && 0.0 < t && OnGrid(s, t)
    ensures Divides(t, s)
  {}

  // ----- The exchange's own filters -----

  /** The need is at least the minimum rounded up, and the minimum is not above the maximum. */
  ghost predicate ReachesMinimum(f: SymbolFilter, need: real) {
    (f.MinQty() <= 0.0 || RoundToNearest(f.MinQty(), f.Step(), true) <= need) && Within(f.MinQty(), f.MaxQty())
  }

  /** The minimum is reached, and what is sent is on both grids: the need rounded down, or the maximum where that cuts
      it. */
  ghost predicate FitsLots(f: SymbolFilter, need: real) {
    var g := RoundToNearest(need, f.Step(), false);
    ReachesMinimum(f, need) && f.OnBothGrids(if Within(g, f.MaxQty()) then g else f.MaxQty().limit)
  }

  /** The minimum is reached, and the maximum does not cut or is itself on both grids. */
  ghost predicate FitsBounds(f: SymbolFilter, need: real) {
    && ReachesMinimum(f, need)
    && (Within(RoundToNearest(need, f.Step(), false), f.MaxQty()) || f.OnBothGrids(f.MaxQty().limit))
  }

  /** A non-negative bound is reached by the rounded down quantity exactly when its own rounding up is not above the
      quantity. */
  lemma {:induction false} RoundingsMeet(q: real, low: real, step: real)
    requires 0.0 <= q && 0.0 <= low && 0.0 <= step
    ensures low <= RoundToNearest(q, step, false) <==> RoundToNearest(low, step, true) <= q
  {
    hide RoundToNearest, OnGrid;
    RoundToNearestIsNeighbour(q, step);
    RoundToNearestIsNeighbour(low, step);
  }

  /** A rounded quantity meets both lot filters of the exchange exactly when the quantity fits; if the steps agree,
      that is when it reaches the minimum and is not cut by a maximum off the grids. */
  lemma {:induction false} RoundQtyMeetsFiltersIff(f: SymbolFilter, q: real)
    requires f.WellFormed() && 0.0 <= q
    ensures f.MeetsLotFilters(f.RoundQty(q)) <==> FitsLots(f, q)
    ensures f.StepsAgree() ==> (f.MeetsLotFilters(f.RoundQty(q)) <==> FitsBounds(f, q))
    ensures f.StepsAgree() && Within(RoundToNearest(q, f.Step(), false), f.MaxQty()) ==>
              f.OnBothGrids(RoundToNearest(q, f.Step(), false))
  {
    var r, g := f.RoundQty(q), RoundToNearest(q, f.Step(), false);
    RoundToNearestIsNeighbour(q, f.Step());
    RoundQtyBounds(f, q);
    if f.StepsAgree() {
      BothGridsOfStep(f, g);
    }
    MeetsIs(f, r);
    if 0.0 <= f.MinQty() {
      RoundingsMeet(q, f.MinQty(), f.Step());
    }
  }

  lemma MeetsIs(f: SymbolFilter, q: real)
    requires f.WellFormed()
    ensures f.MeetsLotFilters(q) <==> f.MinQty() <= q && Within(q, f.MaxQty()) && f.OnBothGrids(q)
  {}
}
