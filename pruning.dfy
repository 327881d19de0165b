/**
 * The pure parts of the search: selecting the best investment, the two domination
 * bounds, the optimistic resource sum, the running best-so-far accumulator and the
 * generator of non-dominated consumption choices.
 */
module Pruning {
  import opened Wrappers
  import opened PayoutTypes
  import opened Ordering
  import opened MinimalInvestment

  /** The order in which choices are compared: reward first, then resource profit. */
  function PayoutKey(p: Payout): (int, int) {
    (p.reward, p.resourceProfit)
  }

  /**
   * The investment whose payout for the budget has the greatest reward and, among those,
   * the greatest resource profit; the first such investment when several tie.
   */
  function SelectMaxInvestmentByRewardMaximisation(investments: seq<Investment>, resources: int): (r: (Investment, Payout))
    requires |investments| > 0
    ensures r.1 == r.0.ComputePayout(resources)
    ensures forall j :: 0 <= j < |investments| ==> LexLeq(PayoutKey(investments[j].ComputePayout(resources)), PayoutKey(r.1))
    ensures exists k :: (0 <= k < |investments| && investments[k] == r.0 &&
                         forall j :: 0 <= j < k ==> !LexLeq(PayoutKey(r.1), PayoutKey(investments[j].ComputePayout(resources))))
  {
    var key := (i: Investment) => PayoutKey(i.ComputePayout(resources));
    FirstMaxIndexIsFirstMax(investments, key);
    var k := FirstMaxIndex(investments, key);
    (investments[k], investments[k].ComputePayout(resources))
  }

  /**
   * `(reward, resource profit)` of the first investment whose payout has the greatest
   * resource profit; `ResourceBoundIsFirstMaxProfit` states what it is.
   */
  function ComputeMinRewardBoundByResourceMaxing(investments: seq<Investment>, resources: int): (int, int)
    requires |investments| > 0
  {
    var k := FirstMaxIndex(investments, (i: Investment) => (i.ComputePayout(resources).resourceProfit, 0));
    var p := investments[k].ComputePayout(resources);
    (p.reward, p.resourceProfit)
  }

  /** No investment makes more resources for this budget, and no earlier one makes as much. */
  lemma ResourceBoundIsFirstMaxProfit(investments: seq<Investment>, resources: int)
    requires |investments| > 0
    ensures var b := ComputeMinRewardBoundByResourceMaxing(investments, resources);
      forall j :: 0 <= j < |investments| ==> investments[j].ComputePayout(resources).resourceProfit <= b.1
    ensures var b := ComputeMinRewardBoundByResourceMaxing(investments, resources);
      exists k :: (0 <= k < |investments| &&
                   b == (investments[k].ComputePayout(resources).reward, investments[k].ComputePayout(resources).resourceProfit) &&
                   forall j :: 0 <= j < k ==> investments[j].ComputePayout(resources).resourceProfit < b.1)
  {
    var key := (i: Investment) => (i.ComputePayout(resources).resourceProfit, 0);
    FirstMaxIndexIsFirstMax(investments, key);
    var k := FirstMaxIndex(investments, key);
    assert ComputeMinRewardBoundByResourceMaxing(investments, resources).1 == investments[k].ComputePayout(resources).resourceProfit;
  }

  /**
   * `(resource profit, reward)` -- in that order -- of the payout of the first investment
   * with the greatest reward discharge amount; `RewardBoundIsFirstMaxReward` states what it is.
   */
  function ComputeMinResourceBoundByRewardMaxing(investments: seq<Investment>, resources: int): (int, int)
    requires |investments| > 0
  {
    var k := FirstMaxIndex(investments, (i: Investment) => (i.rewardDischargeAmount, 0));
    var p := investments[k].ComputePayout(resources);
    (p.resourceProfit, p.reward)
  }

  /** The bound comes from an investment with the greatest reward discharge amount, the first such. */
  lemma RewardBoundIsFirstMaxReward(investments: seq<Investment>, resources: int)
    requires |investments| > 0
    ensures var b := ComputeMinResourceBoundByRewardMaxing(investments, resources);
      exists k :: (0 <= k < |investments| &&
                   b == (investments[k].ComputePayout(resources).resourceProfit, investments[k].ComputePayout(resources).reward) &&
                   (forall j :: 0 <= j < |investments| ==> investments[j].rewardDischargeAmount <= investments[k].rewardDischargeAmount) &&
                   forall j :: 0 <= j < k ==> investments[j].rewardDischargeAmount < investments[k].rewardDischargeAmount)
  {
    var key := (i: Investment) => (i.rewardDischargeAmount, 0);
    FirstMaxIndexIsFirstMax(investments, key);
    var k := FirstMaxIndex(investments, key);
    assert ComputeMinResourceBoundByRewardMaxing(investments, resources).0 == investments[k].ComputePayout(resources).resourceProfit;
  }

  /** What discharging one investment would add to the balance: its resource amount minus what it still needs. */
  function DischargeGain(i: Investment): int {
    i.resourceDischargeAmount - i.ResourcesUntilPayout()
  }

  function ResourceGain(s: seq<Investment>): int {
    if s == [] then 0 else DischargeGain(s[0]) + ResourceGain(s[1..])
  }

  /**
   * The balance if every investment in the list were discharged once from now on: the
   * balance now for no investment, and the balance plus the one gain for a single one.
   */
  function GetMaxPossibleResourceSum(investments: seq<Investment>, resourcesNow: int): (r: int)
    ensures investments == [] ==> r == resourcesNow
    ensures |investments| == 1 ==> r == resourcesNow + DischargeGain(investments[0])
  {
    assert |investments| == 1 ==> investments[1..] == [] && ResourceGain(investments[1..]) == 0;
    resourcesNow + ResourceGain(investments)
  }

  lemma {:induction false} ResourceGainAppend(a: seq<Investment>, b: seq<Investment>)
    ensures ResourceGain(a + b) == ResourceGain(a) + ResourceGain(b)
  {
    if a != [] {
      assert (a + b)[1..] == a[1..] + b;
      ResourceGainAppend(a[1..], b);
    } else {
      assert a + b == b;
    }
  }

  /** The total gain is non-negative when every discharge gains, and non-positive when none does. */
  lemma {:induction false} ResourceGainSign(s: seq<Investment>)
    ensures (forall i :: i in s ==> DischargeGain(i) >= 0) ==> ResourceGain(s) >= 0
    ensures (forall i :: i in s ==> DischargeGain(i) <= 0) ==> ResourceGain(s) <= 0
  {
    if s != [] {
      ResourceGainSign(s[1..]);
      assert forall i :: i in s[1..] ==> i in s;
    }
  }

  /** The optimistic balance is no less than the balance now when every discharge gains, and no more when none does. */
  lemma MaxPossibleSumBounds(investments: seq<Investment>, resourcesNow: int)
    ensures (forall i :: i in investments ==> DischargeGain(i) >= 0) ==> GetMaxPossibleResourceSum(investments, resourcesNow) >= resourcesNow
    ensures (forall i :: i in investments ==> DischargeGain(i) <= 0) ==> GetMaxPossibleResourceSum(investments, resourcesNow) <= resourcesNow
  {
    ResourceGainSign(investments);
  }

  /** Taking out the investment at `i` takes its gain out of the total. */
  lemma ResourceGainWithout(b: seq<Investment>, i: nat)
    requires i < |b|
    ensures ResourceGain(b) == DischargeGain(b[i]) + ResourceGain(b[..i] + b[i + 1..])
  {
    assert b == b[..i] + ([b[i]] + b[i + 1..]);
    ResourceGainAppend(b[..i], [b[i]] + b[i + 1..]);
    ResourceGainAppend(b[..i], b[i + 1..]);
    assert ([b[i]] + b[i + 1..])[1..] == b[i + 1..];
  }

  /** Taking out the investment at `i` takes one occurrence of it out of the multiset. */
  lemma MultisetWithout<T>(b: seq<T>, i: nat)
    requires i < |b|
    ensures multiset(b[..i] + b[i + 1..]) == multiset(b) - multiset{b[i]}
  {
    assert b == b[..i] + ([b[i]] + b[i + 1..]);
    assert multiset(b) == multiset(b[..i]) + multiset{b[i]} + multiset(b[i + 1..]);
    assert multiset(b[..i] + b[i + 1..]) == multiset(b[..i]) + multiset(b[i + 1..]);
  }

  /**
   * Matching the first of `a` with some `b[i]` leaves two lists that are still
   * permutations of each other.
   */
  lemma MatchFirst<T>(a: seq<T>, b: seq<T>) returns (i: nat)
    requires a != [] && multiset(a) == multiset(b)
    ensures i < |b| && b[i] == a[0]
    ensures multiset(a[1..]) == multiset(b[..i] + b[i + 1..])
  {
    assert a[0] in multiset(b);
    i :| 0 <= i < |b| && b[i] == a[0];
    assert multiset(a[1..]) == multiset(a) - multiset{a[0]} by {
      MultisetWithout(a, 0);
      assert a[..0] + a[1..] == a[1..];
    }
    MultisetWithout(b, i);
  }

  /** The optimistic sum of a whole list depends only on which investments it holds, not on their order. */
  lemma {:induction false} ResourceGainPermutationInvariant(a: seq<Investment>, b: seq<Investment>)
    requires multiset(a) == multiset(b)
    ensures ResourceGain(a) == ResourceGain(b)
    decreases |a|
  {
    if a == [] {
      assert |b| == |multiset(b)| == 0;
    } else {
      var i := MatchFirst(a, b);
      ResourceGainPermutationInvariant(a[1..], b[..i] + b[i + 1..]);
      ResourceGainWithout(b, i);
    }
  }

  // ---------------------------------------------------------------------------
  // The running best-so-far accumulator

  /** The best discharging `(reward, profit)` and the best latent `(reward amount, resource amount, still missing)` seen. */
  datatype Accumulator = Accumulator(discharge: Option<(int, int)>, latent: Option<(int, int, int)>)

  /** `best` strictly wins on reward, and also on resources unless this is the last timestep. */
  predicate Beats(best: (int, int), cand: (int, int), isLastTimestep: bool) {
    cand.0 < best.0 && (cand.1 < best.1 || isLastTimestep)
  }

  /** `cand` is at least as good on reward, and on resources unless this is the last timestep. */
  predicate Covers(cand: (int, int), best: (int, int), isLastTimestep: bool) {
    cand.0 >= best.0 && (cand.1 >= best.1 || isLastTimestep)
  }

  /** Latent comparison: more reward, more resources and less still to pay (or the last timestep). */
  predicate LatentBeats(best: (int, int, int), cand: (int, int, int), isLastTimestep: bool) {
    cand.0 < best.0 && ((cand.1 < best.1 && cand.2 > best.2) || isLastTimestep)
  }

  predicate LatentCovers(cand: (int, int, int), best: (int, int, int), isLastTimestep: bool) {
    cand.0 >= best.0 && ((cand.1 >= best.1 && cand.2 <= best.2) || isLastTimestep)
  }

  function DischargePair(c: Payout): (int, int) {
    (c.reward, c.resourceProfit)
  }

  /** What a non-discharging choice promises: the investment's amounts and what it would still need. */
  function LatentTriple(inv: Investment, c: Payout): (int, int, int) {
    (inv.rewardDischargeAmount, inv.resourceDischargeAmount, inv.ResourcesUntilPayoutPostInjection(c.resourcesSpent))
  }

  /**
   * Screens the best choice of one investment against the best results so far: `None`
   * when it is dominated, otherwise the accumulator updated with it when it is at least
   * as good as the recorded best.
   */
  function UpdateBestResultSoFar(maxChoice: Payout, investment: Investment, best: Accumulator,
                                 isLastTimestep: bool): (r: Option<Accumulator>)
    // the first investment screened is never pruned
    ensures best.discharge.None? && best.latent.None? ==> r.Some?
    // a discharging choice: pruned exactly when the best discharge beats it
    ensures maxChoice.dischargeReached ==>
      (r.None? <==> best.discharge.Some? && Beats(best.discharge.value, DischargePair(maxChoice), isLastTimestep))
    ensures maxChoice.dischargeReached && r.Some? ==>
      r.value.latent == best.latent &&
      r.value.discharge in {best.discharge, Some(DischargePair(maxChoice))} &&
      r.value.discharge.Some? &&
      (best.discharge.Some? ==> best.discharge.value.0 <= r.value.discharge.value.0)
    ensures maxChoice.dischargeReached && r.Some? && best.discharge.Some? ==>
      (r.value.discharge == Some(DischargePair(maxChoice)) <==> Covers(DischargePair(maxChoice), best.discharge.value, isLastTimestep))
    // a non-discharging choice never touches the best discharge
    ensures !maxChoice.dischargeReached && r.Some? ==>
      r.value.discharge == best.discharge &&
      r.value.latent in {best.latent, Some(LatentTriple(investment, maxChoice))} &&
      r.value.latent.Some?
    // a surviving non-discharging choice replaces the best latent exactly when it covers it
    ensures !maxChoice.dischargeReached && r.Some? && best.latent.Some? ==>
      (r.value.latent == Some(LatentTriple(investment, maxChoice)) <==>
       LatentCovers(LatentTriple(investment, maxChoice), best.latent.value, isLastTimestep))
    ensures !maxChoice.dischargeReached && r.Some? && best.latent.None? ==>
      r.value.latent == Some(LatentTriple(investment, maxChoice))
    ensures !maxChoice.dischargeReached ==>
      (r.None? <==>
         (best.discharge.Some? &&
          Beats(best.discharge.value, (investment.rewardDischargeAmount, investment.resourceDischargeAmount), isLastTimestep)) ||
         (best.latent.Some? && LatentBeats(best.latent.value, LatentTriple(investment, maxChoice), isLastTimestep)))
  {
    if maxChoice.dischargeReached then
      var cand := DischargePair(maxChoice);
      match best.discharge
      case None => Some(best.(discharge := Some(cand)))
      case Some(b) =>
        if Beats(b, cand, isLastTimestep) then None
        else if Covers(cand, b, isLastTimestep) then Some(best.(discharge := Some(cand)))
        else Some(best)
    else if best.discharge.Some? &&
            Beats(best.discharge.value, (investment.rewardDischargeAmount, investment.resourceDischargeAmount), isLastTimestep) then
      None
    else
      var cand := LatentTriple(investment, maxChoice);
      match best.latent
      case None => Some(best.(latent := Some(cand)))
      case Some(l) =>
        if LatentBeats(l, cand, isLastTimestep) then None
        else if LatentCovers(cand, l, isLastTimestep) then Some(best.(latent := Some(cand)))
        else Some(best)
  }

  /** An investment screened earlier in the same sweep, with the best choice it was screened with. */
  datatype Screened = Screened(investment: Investment, choice: Payout)

  /** Every recorded best comes from an investment screened earlier. */
  ghost predicate Justified(best: Accumulator, seen: seq<Screened>) {
    (best.discharge.Some? ==>
       exists k :: 0 <= k < |seen| && seen[k].choice.dischargeReached &&
                   best.discharge.value == DischargePair(seen[k].choice)) &&
    (best.latent.Some? ==>
       exists k :: 0 <= k < |seen| && !seen[k].choice.dischargeReached &&
                   best.latent.value == LatentTriple(seen[k].investment, seen[k].choice))
  }

  /** `x` is dominated by the earlier `y` in the sense the accumulator prunes by. */
  predicate DominatedBy(x: Screened, y: Screened, isLastTimestep: bool) {
    if y.choice.dischargeReached then
      if x.choice.dischargeReached then Beats(DischargePair(y.choice), DischargePair(x.choice), isLastTimestep)
      else Beats(DischargePair(y.choice),
                 (x.investment.rewardDischargeAmount, x.investment.resourceDischargeAmount), isLastTimestep)
    else
      !x.choice.dischargeReached &&
      LatentBeats(LatentTriple(y.investment, y.choice), LatentTriple(x.investment, x.choice), isLastTimestep)
  }

  /** Screening keeps every recorded best tied to an investment actually screened. */
  lemma UpdateKeepsJustified(maxChoice: Payout, investment: Investment, best: Accumulator,
                             isLastTimestep: bool, seen: seq<Screened>)
    requires Justified(best, seen)
    requires UpdateBestResultSoFar(maxChoice, investment, best, isLastTimestep).Some?
    ensures Justified(UpdateBestResultSoFar(maxChoice, investment, best, isLastTimestep).value,
                      seen + [Screened(investment, maxChoice)])
  {
    var seen' := seen + [Screened(investment, maxChoice)];
    var r := UpdateBestResultSoFar(maxChoice, investment, best, isLastTimestep).value;
    var n := |seen|;
    assert seen'[n] == Screened(investment, maxChoice);
    if r.discharge.Some? && r.discharge != best.discharge {
      assert r.discharge.value == DischargePair(seen'[n].choice);
    } else if r.discharge.Some? {
      var k :| 0 <= k < |seen| && seen[k].choice.dischargeReached && best.discharge.value == DischargePair(seen[k].choice);
      assert seen'[k] == seen[k];
    }
    if r.latent.Some? && r.latent != best.latent {
      assert r.latent.value == LatentTriple(seen'[n].investment, seen'[n].choice);
    } else if r.latent.Some? {
      var k :| 0 <= k < |seen| && !seen[k].choice.dischargeReached &&
               best.latent.value == LatentTriple(seen[k].investment, seen[k].choice);
      assert seen'[k] == seen[k];
    }
  }

  /**
   * Pruning is sound with respect to the sweep: an investment the accumulator rejects is
   * dominated by an investment screened before it.
   */
  lemma PrunedChoiceIsDominated(maxChoice: Payout, investment: Investment, best: Accumulator,
                                isLastTimestep: bool, seen: seq<Screened>)
    requires Justified(best, seen)
    requires UpdateBestResultSoFar(maxChoice, investment, best, isLastTimestep).None?
    ensures exists k :: 0 <= k < |seen| && DominatedBy(Screened(investment, maxChoice), seen[k], isLastTimestep)
  {
    var x := Screened(investment, maxChoice);
    if best.discharge.Some? &&
       (if maxChoice.dischargeReached then Beats(best.discharge.value, DischargePair(maxChoice), isLastTimestep)
        else Beats(best.discharge.value, (investment.rewardDischargeAmount, investment.resourceDischargeAmount), isLastTimestep)) {
      var k :| 0 <= k < |seen| && seen[k].choice.dischargeReached && best.discharge.value == DischargePair(seen[k].choice);
      assert DominatedBy(x, seen[k], isLastTimestep);
    } else {
      var k :| 0 <= k < |seen| && !seen[k].choice.dischargeReached &&
               best.latent.value == LatentTriple(seen[k].investment, seen[k].choice);
      assert DominatedBy(x, seen[k], isLastTimestep);
    }
  }

  // ---------------------------------------------------------------------------
  // Consumption choices

  /** The most the investment can usefully take now: what it still needs, its capacity and the budget. */
  function MaxSpend(investment: Investment, resources: int): int {
    Min(Min(investment.ResourcesUntilPayout(), investment.resourceCapacity), resources)
  }

  /**
   * The choices worth branching on. A net-resource-positive investment whose discharge fits
   * this step gets the single choice that pays exactly what it still needs; any other
   * investment gets every spend 0, 1, ..., MaxSpend - 1 in ascending order (the upper end is
   * exclusive, so the list is empty when MaxSpend is 0 or less).
   */
  function NondominatedChoices(investment: Investment, resources: int): seq<Payout> {
    var m := MaxSpend(investment, resources);
    if investment.IsNetResourcePositive() && m >= investment.ResourcesUntilPayout() then
      [investment.ComputePayout(m)]
    else
      seq(if m > 0 then m else 0, r requires 0 <= r => investment.ComputePayout(r))
  }

  /**
   * What `NondominatedChoices` offers: no choice spends more than MaxSpend; the single
   * discharging choice, or one choice per spend below MaxSpend.
   */
  lemma NondominatedChoicesShape(investment: Investment, resources: int)
    ensures var cs := NondominatedChoices(investment, resources);
      forall k :: 0 <= k < |cs| ==> cs[k].resourcesSpent <= MaxSpend(investment, resources)
    ensures var cs := NondominatedChoices(investment, resources);
      investment.IsNetResourcePositive() && MaxSpend(investment, resources) >= investment.ResourcesUntilPayout() ==>
      cs == [investment.ComputePayout(investment.ResourcesUntilPayout())] &&
      cs[0].resourcesSpent == investment.ResourcesUntilPayout() && cs[0].dischargeReached
    ensures var cs := NondominatedChoices(investment, resources);
      !(investment.IsNetResourcePositive() && MaxSpend(investment, resources) >= investment.ResourcesUntilPayout()) ==>
      |cs| == (if MaxSpend(investment, resources) > 0 then MaxSpend(investment, resources) else 0) &&
      forall k :: 0 <= k < |cs| ==> cs[k] == investment.ComputePayout(k) && cs[k].resourcesSpent == k
  {
  }

  /**
   * Because the enumeration stops below MaxSpend, and MaxSpend never exceeds what the
   * investment still needs, no enumerated choice discharges: an investment that is not net
   * resource positive is never offered the spend that would discharge it.
   */
  lemma EnumeratedChoicesNeverDischarge(investment: Investment, resources: int, k: nat)
    requires !(investment.IsNetResourcePositive() && MaxSpend(investment, resources) >= investment.ResourcesUntilPayout())
    requires k < |NondominatedChoices(investment, resources)|
    ensures !NondominatedChoices(investment, resources)[k].dischargeReached
    ensures NondominatedChoices(investment, resources)[k].reward == 0
    ensures NondominatedChoices(investment, resources)[k].resourceProfit == -(k as int)
  {
  }

  /**
   * The single choice kept for a net-resource-positive investment is at least as good, in
   * reward and in resource profit, as any smaller spend it replaces.
   */
  lemma SingleChoiceDominatesSmallerSpends(investment: Investment, resources: int, a: int)
    requires investment.WellFormed() && 0 <= investment.rewardDischargeAmount
    requires investment.IsNetResourcePositive() && MaxSpend(investment, resources) >= investment.ResourcesUntilPayout()
    requires 0 <= a < investment.ResourcesUntilPayout()
    ensures var c := NondominatedChoices(investment, resources)[0];
      investment.ComputePayout(a).reward <= c.reward &&
      investment.ComputePayout(a).resourceProfit <= c.resourceProfit
  {
  }

  /** Every choice is the investment's own payout for some non-negative offer. */
  lemma ChoiceIsPayoutOfOffer(investment: Investment, resources: int, c: Payout)
    requires investment.WellFormed()
    requires c in NondominatedChoices(investment, resources)
    ensures exists a :: 0 <= a && c == investment.ComputePayout(a)
  {
    var cs := NondominatedChoices(investment, resources);
    var k :| 0 <= k < |cs| && cs[k] == c;
    if investment.IsNetResourcePositive() && MaxSpend(investment, resources) >= investment.ResourcesUntilPayout() {
      assert c == investment.ComputePayout(investment.ResourcesUntilPayout());
    } else {
      assert c == investment.ComputePayout(k);
    }
  }

  /** The choice the search screens: greatest reward, then greatest profit, first among ties. */
  function MaxChoice(choices: seq<Payout>): (c: Payout)
    requires |choices| > 0
    ensures c in choices
  {
    choices[FirstMaxIndex(choices, PayoutKey)]
  }

  /** No choice has a greater (reward, resource profit) than `MaxChoice`. */
  lemma MaxChoiceIsMax(choices: seq<Payout>)
    requires |choices| > 0
    ensures forall j :: 0 <= j < |choices| ==> LexLeq(PayoutKey(choices[j]), PayoutKey(MaxChoice(choices)))
  {
    FirstMaxIndexIsFirstMax(choices, PayoutKey);
  }

  /**
   * Ties go to the first: `MaxChoice` is at an index before which every choice has a
   * strictly smaller key.
   */
  lemma MaxChoiceIsFirstAmongTies(choices: seq<Payout>)
    requires |choices| > 0
    ensures exists k :: 0 <= k < |choices| && choices[k] == MaxChoice(choices) &&
                        forall j :: 0 <= j < k ==> !LexLeq(PayoutKey(MaxChoice(choices)), PayoutKey(choices[j]))
  {
    FirstMaxIndexIsFirstMax(choices, PayoutKey);
    var k := FirstMaxIndex(choices, PayoutKey);
    assert choices[k] == MaxChoice(choices);
  }
}
