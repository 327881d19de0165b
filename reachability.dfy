/**
 * The test that prunes investments whose discharge cannot be afforded before the
 * horizon. `false` only means the cheap test found no reason to prune; a `true` verdict
 * is not always right either (see UnreachableVerdictCanBeWrong).
 */
module Reachability {
  import opened Wrappers
  import opened PayoutTypes
  import opened Ordering
  import opened MinimalInvestment
  import opened Pruning
  import opened Paths

  /**
   * The verdict of the test, or `Diverges` when the search for a sufficient window runs
   * past the end of the investments: there the window is empty, its optimistic sum is the
   * current balance, which is below the target, and the loop would never stop.
   */
  datatype Decision = Decided(unreachable: bool) | Diverges

  /** The capacity of `x` can recover to its threshold within `timesteps` steps. */
  predicate RecoversWithin(x: Investment, timesteps: int) {
    x.resourceCapacity + x.capacityRecoveryRate * timesteps >= x.dischargeThreshold
  }

  /** The investments, in order, whose capacity can recover to their threshold within `timesteps` steps. */
  function TemporallyAvailable(investments: seq<Investment>, timesteps: int): (r: seq<Investment>)
    ensures |r| <= |investments|
    ensures forall x :: x in r <==> x in investments && RecoversWithin(x, timesteps)
    ensures |investments| == 1 ==> r == (if RecoversWithin(investments[0], timesteps) then investments else [])
  {
    if investments == [] then []
    else
      var x := investments[0];
      var rest := TemporallyAvailable(investments[1..], timesteps);
      assert investments == [x] + investments[1..];
      if RecoversWithin(x, timesteps) then [x] + rest else rest
  }

  /** The filter works element by element: on a concatenation it filters each part and keeps their order. */
  lemma {:induction false} TemporallyAvailableAppend(a: seq<Investment>, b: seq<Investment>, timesteps: int)
    ensures TemporallyAvailable(a + b, timesteps) == TemporallyAvailable(a, timesteps) + TemporallyAvailable(b, timesteps)
    decreases |a|
  {
    if a == [] {
      assert a + b == b;
    } else {
      assert (a + b)[0] == a[0] && (a + b)[1..] == a[1..] + b;
      TemporallyAvailableAppend(a[1..], b, timesteps);
    }
  }

  /** Every investment that recovers in time is kept as often as it occurs, and no other one. */
  lemma {:induction false} TemporallyAvailableCounts(investments: seq<Investment>, timesteps: int, x: Investment)
    ensures multiset(TemporallyAvailable(investments, timesteps))[x] ==
            if RecoversWithin(x, timesteps) then multiset(investments)[x] else 0
    decreases |investments|
  {
    if investments != [] {
      TemporallyAvailableCounts(investments[1..], timesteps, x);
      assert investments == [investments[0]] + investments[1..];
    }
  }

  /** Investments by ascending threshold, stable. */
  function ByCheapness(investments: seq<Investment>): seq<Investment> {
    SortBy(investments, (i: Investment) => (i.dischargeThreshold, 0))
  }

  /** Investments by descending discharge gain, stable. */
  function ByResourceProfit(investments: seq<Investment>): seq<Investment> {
    SortBy(investments, (i: Investment) => (-DischargeGain(i), 0))
  }

  /** Python's `s[:n]`. */
  function Prefix(s: seq<Investment>, n: nat): seq<Investment> {
    s[..Min(n, |s|)]
  }

  /** Python's `s[start : start + n]`: at most `n` consecutive elements from `start`, empty past the end. */
  function Window(s: seq<Investment>, start: nat, n: nat): seq<Investment> {
    s[Min(start, |s|)..Min(start + n, |s|)]
  }

  /** The optimistic balance after discharging every investment of the window from index `j`. */
  function WindowSum(cheap: seq<Investment>, j: nat, timesteps: nat, resourcesNow: int): int {
    GetMaxPossibleResourceSum(Window(cheap, j, timesteps), resourcesNow)
  }

  /** The first index from `from` on whose window reaches the target, if any. */
  function FirstSufficientWindow(cheap: seq<Investment>, resourcesNow: int, target: int, timesteps: nat,
                                 from: nat): (j: Option<nat>)
    ensures j.Some? ==> from <= j.value < |cheap| && WindowSum(cheap, j.value, timesteps, resourcesNow) >= target
    ensures j.Some? ==> forall i :: from <= i < j.value ==> WindowSum(cheap, i, timesteps, resourcesNow) < target
    ensures j.None? ==> forall i :: from <= i < |cheap| ==> WindowSum(cheap, i, timesteps, resourcesNow) < target
    decreases |cheap| - from
  {
    if from >= |cheap| then None
    else if WindowSum(cheap, from, timesteps, resourcesNow) >= target then Some(from)
    else FirstSufficientWindow(cheap, resourcesNow, target, timesteps, from + 1)
  }

  /**
   * What the test decides: no when the target is already met; yes when fewer investments
   * than steps can recover in time, or when even the `timesteps` most profitable ones fall
   * short; otherwise it looks for the first window of consecutive cheapest investments that
   * reaches the target and answers whether its first investment is out of reach now.
   */
  function ReachabilitySpec(investments: seq<Investment>, resourcesNow: int, target: int, timesteps: nat): (d: Decision)
    ensures target <= resourcesNow ==> d == Decided(false)
    // any answer past the met target needs at least one step and as many investments as steps
    ensures d != Decided(true) && resourcesNow < target ==> 0 < timesteps <= |investments|
    // the two early rules: too few investments recover in time, or the best prefix falls short
    ensures resourcesNow < target && |TemporallyAvailable(investments, timesteps)| < timesteps ==> d == Decided(true)
    ensures resourcesNow < target &&
            GetMaxPossibleResourceSum(Prefix(ByResourceProfit(investments), timesteps), resourcesNow) < target ==>
            d == Decided(true)
  {
    if target <= resourcesNow then Decided(false)
    else if |TemporallyAvailable(investments, timesteps)| < timesteps then Decided(true)
    else if GetMaxPossibleResourceSum(Prefix(ByResourceProfit(investments), timesteps), resourcesNow) < target then Decided(true)
    else
      var cheap := ByCheapness(investments);
      match FirstSufficientWindow(cheap, resourcesNow, target, timesteps, 0)
      case None => Diverges
      case Some(j) => Decided(cheap[j].ResourcesUntilPayout() > resourcesNow)
  }

  /**
   * The test as the code runs it, with the window loop bounded: it reports `Diverges`
   * instead of looping forever once the window is empty.
   */
  method IsResourceLevelUnreachable(investments: seq<Investment>, resourcesNow: int, target: int,
                                    timesteps: nat) returns (d: Decision)
    ensures d == ReachabilitySpec(investments, resourcesNow, target, timesteps)
  {
    if target <= resourcesNow {
      return Decided(false);
    }
    var available := TemporallyAvailable(investments, timesteps);
    if |available| < timesteps {
      return Decided(true);
    }
    var cheap := ByCheapness(investments);
    var byProfit := ByResourceProfit(investments);
    var maxPossibleSum := GetMaxPossibleResourceSum(Prefix(byProfit, timesteps), resourcesNow);
    if maxPossibleSum < target {
      return Decided(true);
    }
    assert timesteps > 0;
    var window := SlideWindow(cheap, resourcesNow, target, timesteps);
    if window.None? {
      return Diverges;
    }
    if window.value[0].ResourcesUntilPayout() > resourcesNow {
      return Decided(true);
    }
    return Decided(false);
  }

  /**
   * The sliding-window loop: starting from the first `timesteps` cheapest investments it
   * moves the window one place at a time until the optimistic sum reaches the target. It
   * returns `None` where the code would loop forever: the window has become empty.
   */
  method SlideWindow(cheap: seq<Investment>, resourcesNow: int, target: int, timesteps: nat)
    returns (found: Option<seq<Investment>>)
    requires 0 < timesteps && resourcesNow < target
    ensures found.None? <==> FirstSufficientWindow(cheap, resourcesNow, target, timesteps, 0).None?
    ensures found.Some? ==>
      var j := FirstSufficientWindow(cheap, resourcesNow, target, timesteps, 0).value;
      found.value == Window(cheap, j, timesteps) && found.value != [] && found.value[0] == cheap[j]
  {
    var startIdx := 0;
    var window := Prefix(cheap, timesteps);
    while GetMaxPossibleResourceSum(window, resourcesNow) < target
      invariant startIdx <= |cheap| + 1
      invariant window == Window(cheap, if startIdx == 0 then 0 else startIdx - 1, timesteps)
      invariant forall i :: 0 <= i < startIdx - 1 ==> WindowSum(cheap, i, timesteps, resourcesNow) < target
      decreases |cheap| + 1 - startIdx
    {
      if window == [] {
        // every later window is empty too, so the loop of the code never ends
        return None;
      }
      window := Window(cheap, startIdx, timesteps);
      startIdx := startIdx + 1;
    }
    var s := if startIdx == 0 then 0 else startIdx - 1;
    assert window != [];
    assert s < |cheap|;
    assert WindowSum(cheap, s, timesteps, resourcesNow) >= target;
    assert FirstSufficientWindow(cheap, resourcesNow, target, timesteps, 0) == Some(s);
    return Some(window);
  }

  /** Whether the investment's threshold is out of reach for the path's balance and world. */
  method IsInvestmentDischargeUnreachable(path: ResourcePath, investment: Investment, timestepsRemaining: nat)
    returns (d: Decision)
    ensures d == ReachabilitySpec(path.worldCopy, path.resourcesToSpend, investment.dischargeThreshold, timestepsRemaining)
  {
    d := IsResourceLevelUnreachable(path.worldCopy, path.resourcesToSpend, investment.dischargeThreshold, timestepsRemaining);
  }

  /** With no steps left, any target above the balance is unreachable. */
  lemma NoTimeLeftIsUnreachable(investments: seq<Investment>, resourcesNow: int, target: int)
    requires resourcesNow < target
    ensures ReachabilitySpec(investments, resourcesNow, target, 0) == Decided(true)
  {
    assert Prefix(ByResourceProfit(investments), 0) == [];
  }

  /**
   * A "reachable" verdict always has a witness: the target is met already, or some
   * window of consecutive cheapest investments reaches it optimistically and its first
   * investment is affordable with the current balance.
   */
  lemma ReachableVerdictHasWitness(investments: seq<Investment>, resourcesNow: int, target: int, timesteps: nat)
    requires ReachabilitySpec(investments, resourcesNow, target, timesteps) == Decided(false)
    ensures target <= resourcesNow ||
      exists j :: 0 <= j < |investments| &&
        WindowSum(ByCheapness(investments), j, timesteps, resourcesNow) >= target &&
        ByCheapness(investments)[j].ResourcesUntilPayout() <= resourcesNow
  {
    if target > resourcesNow {
      var j := FirstSufficientWindow(ByCheapness(investments), resourcesNow, target, timesteps, 0).value;
      assert ByCheapness(investments)[j].ResourcesUntilPayout() <= resourcesNow;
    }
  }

  /**
   * The test diverges exactly when it gets past its early answers and no window of
   * consecutive cheapest investments reaches the target.
   */
  lemma DivergesWhenNoWindowSuffices(investments: seq<Investment>, resourcesNow: int, target: int, timesteps: nat)
    ensures ReachabilitySpec(investments, resourcesNow, target, timesteps) == Diverges <==>
      resourcesNow < target &&
      |TemporallyAvailable(investments, timesteps)| >= timesteps &&
      GetMaxPossibleResourceSum(Prefix(ByResourceProfit(investments), timesteps), resourcesNow) >= target &&
      forall j :: 0 <= j < |investments| ==> WindowSum(ByCheapness(investments), j, timesteps, resourcesNow) < target
  {
    assert |ByCheapness(investments)| == |investments|;
  }

  /**
   * The loop can run forever. With three untouched investments at full capacity,
   * thresholds 1, 2 and 3 returning 11, 0 and 13 resources, a balance of 0, a target of
   * 15 and two steps, the two most
   * profitable investments together reach 20, so the early answers pass; but no window of
   * two consecutive cheapest investments reaches 15 (8, 8, then 10 for the last one alone).
   */
  lemma DivergenceExample(c0: Investment, c1: Investment, c2: Investment)
    requires c0.dischargeThreshold == 1 && c0.resourceDischargeAmount == 11
    requires c1.dischargeThreshold == 2 && c1.resourceDischargeAmount == 0
    requires c2.dischargeThreshold == 3 && c2.resourceDischargeAmount == 13
    requires c0.currentResourcesInvested == 0 && c0.resourceCapacity == 1
    requires c1.currentResourcesInvested == 0 && c1.resourceCapacity == 2
    requires c2.currentResourcesInvested == 0 && c2.resourceCapacity == 3
    requires c0.capacityRecoveryRate == 0 && c1.capacityRecoveryRate == 0 && c2.capacityRecoveryRate == 0
    ensures ReachabilitySpec([c0, c1, c2], 0, 15, 2) == Diverges
  {
    var s := [c0, c1, c2];
    ExampleAllAvailable(c0, c1, c2);
    ExampleBestPrefix(c0, c1, c2);
    ExampleWindowsFallShort(c0, c1, c2);
    DivergesWhenNoWindowSuffices(s, 0, 15, 2);
  }

  lemma ExampleAllAvailable(c0: Investment, c1: Investment, c2: Investment)
    requires c0.dischargeThreshold == 1 && c0.resourceDischargeAmount == 11
    requires c1.dischargeThreshold == 2 && c1.resourceDischargeAmount == 0
    requires c2.dischargeThreshold == 3 && c2.resourceDischargeAmount == 13
    requires c0.currentResourcesInvested == 0 && c0.resourceCapacity == 1
    requires c1.currentResourcesInvested == 0 && c1.resourceCapacity == 2
    requires c2.currentResourcesInvested == 0 && c2.resourceCapacity == 3
    requires c0.capacityRecoveryRate == 0 && c1.capacityRecoveryRate == 0 && c2.capacityRecoveryRate == 0
    ensures TemporallyAvailable([c0, c1, c2], 2) == [c0, c1, c2]
  {
    AllRecoverInTime([c0, c1, c2], 2);
  }

  lemma ExampleBestPrefix(c0: Investment, c1: Investment, c2: Investment)
    requires c0.dischargeThreshold == 1 && c0.resourceDischargeAmount == 11
    requires c1.dischargeThreshold == 2 && c1.resourceDischargeAmount == 0
    requires c2.dischargeThreshold == 3 && c2.resourceDischargeAmount == 13
    requires c0.currentResourcesInvested == 0 && c0.resourceCapacity == 1
    requires c1.currentResourcesInvested == 0 && c1.resourceCapacity == 2
    requires c2.currentResourcesInvested == 0 && c2.resourceCapacity == 3
    requires c0.capacityRecoveryRate == 0 && c1.capacityRecoveryRate == 0 && c2.capacityRecoveryRate == 0
    ensures GetMaxPossibleResourceSum(Prefix(ByResourceProfit([c0, c1, c2]), 2), 0) == 20
  {
    ExampleProfitOrder(c0, c1, c2);
    assert Prefix([c0, c2, c1], 2) == [c0, c2];
    GainOfTwo(c0, c2);
  }

  lemma ExampleProfitOrder(c0: Investment, c1: Investment, c2: Investment)
    requires c0.dischargeThreshold == 1 && c0.resourceDischargeAmount == 11
    requires c1.dischargeThreshold == 2 && c1.resourceDischargeAmount == 0
    requires c2.dischargeThreshold == 3 && c2.resourceDischargeAmount == 13
    requires c0.currentResourcesInvested == 0 && c0.resourceCapacity == 1
    requires c1.currentResourcesInvested == 0 && c1.resourceCapacity == 2
    requires c2.currentResourcesInvested == 0 && c2.resourceCapacity == 3
    requires c0.capacityRecoveryRate == 0 && c1.capacityRecoveryRate == 0 && c2.capacityRecoveryRate == 0
    ensures ByResourceProfit([c0, c1, c2]) == [c0, c2, c1]
  {
    var key := (i: Investment) => (-DischargeGain(i), 0);
    assert key(c0) == (-10, 0) && key(c1) == (2, 0) && key(c2) == (-10, 0);
    SortThreeSwapLast(c0, c1, c2, key);
  }

  lemma ExampleWindowsFallShort(c0: Investment, c1: Investment, c2: Investment)
    requires c0.dischargeThreshold == 1 && c0.resourceDischargeAmount == 11
    requires c1.dischargeThreshold == 2 && c1.resourceDischargeAmount == 0
    requires c2.dischargeThreshold == 3 && c2.resourceDischargeAmount == 13
    requires c0.currentResourcesInvested == 0 && c0.resourceCapacity == 1
    requires c1.currentResourcesInvested == 0 && c1.resourceCapacity == 2
    requires c2.currentResourcesInvested == 0 && c2.resourceCapacity == 3
    requires c0.capacityRecoveryRate == 0 && c1.capacityRecoveryRate == 0 && c2.capacityRecoveryRate == 0
    ensures forall j :: 0 <= j < 3 ==> WindowSum(ByCheapness([c0, c1, c2]), j, 2, 0) < 15
  {
    var cheap := ByCheapness([c0, c1, c2]);
    assert cheap == [c0, c1, c2] by {
      SortThreeInOrder(c0, c1, c2, (i: Investment) => (i.dischargeThreshold, 0));
    }
    assert DischargeGain(c0) == 10 && DischargeGain(c1) == -2 && DischargeGain(c2) == 10;
    WindowSumsOfThree(c0, c1, c2);
  }

  /** The windows of two over a list of three sum the gains they hold. */
  lemma WindowSumsOfThree(a: Investment, b: Investment, c: Investment)
    ensures WindowSum([a, b, c], 0, 2, 0) == DischargeGain(a) + DischargeGain(b)
    ensures WindowSum([a, b, c], 1, 2, 0) == DischargeGain(b) + DischargeGain(c)
    ensures WindowSum([a, b, c], 2, 2, 0) == DischargeGain(c)
  {
    WindowsOfThree(a, b, c);
    GainOfTwo(a, b);
    GainOfTwo(b, c);
  }

  /**
   * An "unreachable" verdict can be wrong. One untouched investment with threshold 1 and
   * capacity 1 that returns 100 resources, a balance of 1, a target of 50 and two steps:
   * fewer investments than steps recover in time, so the test answers "unreachable", yet
   * spending the balance on that investment discharges it at once and leaves 100.
   */
  lemma UnreachableVerdictCanBeWrong(c: Investment)
    requires c.dischargeThreshold == 1 && c.resourceDischargeAmount == 100
    requires c.resourceCapacity == 1 && c.capacityRecoveryRate == 0 && c.currentResourcesInvested == 0
    ensures ReachabilitySpec([c], 1, 50, 2) == Decided(true)
    ensures c.ComputePayout(1).dischargeReached && 1 + c.ComputePayout(1).resourceProfit >= 50
  {
    assert TemporallyAvailable([c], 2) == [c];
  }

  /** When every investment recovers in time, none is filtered out. */
  lemma {:induction false} AllRecoverInTime(investments: seq<Investment>, timesteps: int)
    requires forall x :: x in investments ==> RecoversWithin(x, timesteps)
    ensures TemporallyAvailable(investments, timesteps) == investments
  {
    if investments != [] {
      assert investments == [investments[0]] + investments[1..];
      AllRecoverInTime(investments[1..], timesteps);
    }
  }

  lemma GainOfTwo(a: Investment, b: Investment)
    ensures ResourceGain([a]) == DischargeGain(a)
    ensures ResourceGain([a, b]) == DischargeGain(a) + DischargeGain(b)
  {
    assert [a][1..] == [];
    assert [a, b][1..] == [b];
    assert [b][1..] == [];
  }

  lemma WindowsOfThree(a: Investment, b: Investment, c: Investment)
    ensures Window([a, b, c], 0, 2) == [a, b]
    ensures Window([a, b, c], 1, 2) == [b, c]
    ensures Window([a, b, c], 2, 2) == [c]
  {
  }

  /** Sorting a list with a head inserts the head into the sorted tail. */
  lemma SortCons<T>(x: T, s: seq<T>, key: T -> (int, int))
    ensures SortBy([x] + s, key) == InsertBy(x, SortBy(s, key), key)
  {
    assert ([x] + s)[1..] == s;
  }

  /** An element whose key is not above the head's goes in front. */
  lemma InsertFront<T>(x: T, s: seq<T>, key: T -> (int, int))
    requires s != [] && LexLeq(key(x), key(s[0]))
    ensures InsertBy(x, s, key) == [x] + s
  {
  }

  /** The sort of a single element is that element. */
  lemma SortOne<T>(c: T, key: T -> (int, int))
    ensures SortBy([c], key) == [c]
  {
    SortCons(c, [], key);
    assert [c] + [] == [c];
  }

  /** The sort of two elements, in order when their keys ascend and swapped otherwise. */
  lemma SortTwo<T>(b: T, c: T, key: T -> (int, int))
    ensures LexLeq(key(b), key(c)) ==> SortBy([b, c], key) == [b, c]
    ensures !LexLeq(key(b), key(c)) ==> SortBy([b, c], key) == [c, b]
  {
    SortCons(b, [c], key);
    assert [b] + [c] == [b, c];
    SortOne(c, key);
    assert [c][1..] == [];
  }

  /** An element whose key is not above the sorted tail's first goes in front of it. */
  lemma SortConsFront<T>(x: T, s: seq<T>, key: T -> (int, int))
    requires SortBy(s, key) != [] && LexLeq(key(x), key(SortBy(s, key)[0]))
    ensures SortBy([x] + s, key) == [x] + SortBy(s, key)
  {
    SortCons(x, s, key);
    InsertFront(x, SortBy(s, key), key);
  }

  /** The stable sort leaves three elements whose keys ascend as they are. */
  lemma SortThreeInOrder<T>(a: T, b: T, c: T, key: T -> (int, int))
    requires LexLeq(key(a), key(b)) && LexLeq(key(b), key(c))
    ensures SortBy([a, b, c], key) == [a, b, c]
  {
    SortTwo(b, c, key);
    SortConsFront(a, [b, c], key);
    assert [a] + [b, c] == [a, b, c];
  }

  /** The stable sort moves the last of three elements forward past a greater middle key. */
  lemma SortThreeSwapLast<T>(a: T, b: T, c: T, key: T -> (int, int))
    requires !LexLeq(key(b), key(c)) && LexLeq(key(a), key(c))
    ensures SortBy([a, b, c], key) == [a, c, b]
  {
    SortTwo(b, c, key);
    SortConsFront(a, [b, c], key);
    assert [a] + [b, c] == [a, b, c];
    assert [a] + [c, b] == [a, c, b];
  }
}
