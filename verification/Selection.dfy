/** Which signal the selection loop returns, and when that is the best one. */
module Selection {
  import opened Wrappers
  import opened Market
  import opened CircularArbitrage

  type Signals = seq<Option<Signal>>

  /** Only profitable paths signal. */
  ghost predicate Profitable(signals: Signals) {
    forall i :: 0 <= i < |signals| && signals[i].Some? ==> signals[i].value.pnl > 0.0
  }

  /** The loop with maxPnl updated at each pick: the index of the first signal of greatest pnl, or -1. */
  function BestIndex(signals: Signals): (k: int)
    ensures -1 <= k < |signals| && (k >= 0 ==> signals[k].Some?)
  {
    if signals == [] then -1
    else
      var last, best := signals[|signals|-1], BestIndex(signals[..|signals|-1]);
      var maxPnl := if best >= 0 then signals[best].value.pnl else 0.0;
      if last.Some? && last.value.pnl > maxPnl then |signals| - 1 else best
  }

  ghost predicate IsLast(signals: Signals, k: int) {
    0 <= k < |signals| && signals[k].Some? && forall j :: k < j < |signals| ==> signals[j].None?
  }

  ghost predicate IsFirstGreatest(signals: Signals, k: int) {
    && 0 <= k < |signals| && signals[k].Some?
    && forall j :: 0 <= j < |signals| && signals[j].Some? ==>
         signals[j].value.pnl <= signals[k].value.pnl && (j < k ==> signals[j].value.pnl < signals[k].value.pnl)
  }

  ghost predicate NoSignals(signals: Signals) {
    forall j :: 0 <= j < |signals| ==> signals[j].None?
  }

  /** The loop as written ends with the last signal. */
  lemma {:induction false} LoopPicksLast(signals: Signals)
    requires Profitable(signals)
    ensures if NoSignals(signals) then LastIndex(signals) == -1 else IsLast(signals, LastIndex(signals))
  {
    if signals != [] {
      var init := signals[..|signals|-1];
      assert forall i :: 0 <= i < |init| ==> init[i] == signals[i];
      LoopPicksLast(init);
    }
  }

  /** The loop with maxPnl updated ends with the first signal of greatest pnl. */
  lemma {:induction false} UpdatedLoopPicksBest(signals: Signals)
    requires Profitable(signals)
    ensures if NoSignals(signals) then BestIndex(signals) == -1 else IsFirstGreatest(signals, BestIndex(signals))
  {
    if signals != [] {
      var init := signals[..|signals|-1];
      assert forall i :: 0 <= i < |init| ==> init[i] == signals[i];
      UpdatedLoopPicksBest(init);
    }
  }

  /** The loop as written returns the first signal of greatest pnl exactly when nothing signals after that one. */
  lemma {:induction false} LoopPicksBestIff(signals: Signals)
    requires Profitable(signals)
    ensures LastIndex(signals) == BestIndex(signals) <==>
            forall j :: BestIndex(signals) < j < |signals| ==> signals[j].None?
  {
    LoopPicksLast(signals);
    UpdatedLoopPicksBest(signals);
  }
}
