/**
 * The investment the search works on. The search copies an investment before it
 * changes it, so each copy is modelled as a value: "copy and update" is a function
 * returning the updated value. The payout follows the threshold rule.
 */
module MinimalInvestment {
  import opened PayoutTypes
  import ThresholdInvestment

  datatype Investment = Investment(
    id: string,
    dischargeThreshold: int,
    rewardDischargeAmount: int,
    resourceDischargeAmount: int,
    capacityRecoveryRate: int,
    resourceCapacity: int,
    currentResourcesInvested: int)
  {
    /**
     * Resources still missing before the investment discharges: positive, and no more
     * than the threshold, for a well-formed investment.
     */
    function ResourcesUntilPayout(): (r: int)
      ensures WellFormed() ==> 0 < r <= dischargeThreshold
    {
      dischargeThreshold - currentResourcesInvested
    }

    /**
     * A full discharge returns more resources than the threshold consumes: for an
     * untouched investment whose capacity covers the threshold, exactly when paying the
     * threshold makes a resource profit.
     */
    function IsNetResourcePositive(): (b: bool)
      ensures currentResourcesInvested == 0 && 0 < dischargeThreshold <= resourceCapacity ==>
        (b <==> ComputePayout(dischargeThreshold).resourceProfit > 0)
    {
      resourceDischargeAmount > dischargeThreshold
    }

    /**
     * Resources still missing after `spent` more have been injected (no clamping): what
     * the investment would miss after taking the spend without discharging, and at most
     * zero exactly when the spend reaches the threshold.
     */
    function ResourcesUntilPayoutPostInjection(spent: int): (r: int)
      ensures r == UpdateValuesPostInvestment(false, spent, 0, 0).ResourcesUntilPayout()
      ensures r <= 0 <==> currentResourcesInvested + spent >= dischargeThreshold
    {
      ResourcesUntilPayout() - spent
    }

    /**
     * The payout of an offer: the investment takes the offer clipped to its capacity (all
     * of it when it fits), discharges exactly when what it takes covers what is missing,
     * and then pays its reward and its resource amount minus the spend.
     */
    function ComputePayout(added: int): (p: Payout)
      ensures p.resourcesSpent == ThresholdInvestment.Spend(resourceCapacity, added)
      ensures 0 < added <= resourceCapacity ==> p.resourcesSpent == added
      ensures 0 <= added && 0 <= resourceCapacity ==> 0 <= p.resourcesSpent <= added
      ensures p.dischargeReached <==> currentResourcesInvested + p.resourcesSpent >= dischargeThreshold
      ensures p.reward == (if p.dischargeReached then rewardDischargeAmount else 0)
      ensures p.resourceProfit == (if p.dischargeReached then resourceDischargeAmount else 0) - p.resourcesSpent
    {
      ThresholdInvestment.ThresholdPayout(dischargeThreshold, rewardDischargeAmount, resourceDischargeAmount,
                                          resourceCapacity, currentResourcesInvested, added)
    }

    /**
     * The state after a choice is taken: a discharge empties the accumulated input,
     * otherwise the spend is added to it; the capacity drops by the spend either way.
     */
    function UpdateValuesPostInvestment(dischargeReached: bool, resourcesSpent: int, reward: int,
                                        resourceProfit: int): (r: Investment)
      ensures SameParameters(r, this)
      ensures r.resourceCapacity == resourceCapacity - resourcesSpent
      ensures r.currentResourcesInvested == (if dischargeReached then 0 else currentResourcesInvested + resourcesSpent)
    {
      this.(resourceCapacity := resourceCapacity - resourcesSpent,
            currentResourcesInvested := if dischargeReached then 0 else currentResourcesInvested + resourcesSpent)
    }

    /** Applies a payout record to this investment. */
    function ApplyPayout(p: Payout): Investment {
      UpdateValuesPostInvestment(p.dischargeReached, p.resourcesSpent, p.reward, p.resourceProfit)
    }

    /**
     * The state an investment keeps between discharges: some input is always missing,
     * and the capacity lies between zero and the threshold.
     */
    predicate WellFormed() {
      0 <= currentResourcesInvested < dischargeThreshold &&
      0 <= resourceCapacity <= dischargeThreshold &&
      0 <= capacityRecoveryRate
    }
  }

  /** Two investment states of the same investment: only capacity and input may differ. */
  predicate SameParameters(a: Investment, b: Investment) {
    a.id == b.id && a.dischargeThreshold == b.dischargeThreshold &&
    a.rewardDischargeAmount == b.rewardDischargeAmount &&
    a.resourceDischargeAmount == b.resourceDischargeAmount &&
    a.capacityRecoveryRate == b.capacityRecoveryRate
  }

  /**
   * What is missing is the least offer that discharges: any smaller offer leaves the
   * investment short, and an offer of exactly that much that fits the capacity discharges it.
   */
  lemma MissingIsLeastDischargingOffer(inv: Investment, added: int)
    requires 0 <= added
    ensures added < inv.ResourcesUntilPayout() ==> !inv.ComputePayout(added).dischargeReached
    ensures 0 < inv.ResourcesUntilPayout() <= inv.resourceCapacity ==>
      inv.ComputePayout(inv.ResourcesUntilPayout()).dischargeReached
  {
  }

  /**
   * The spend is clipped to the capacity only, not to what is still missing: with 30 of 50
   * invested and a capacity of 50, an offer of 100 spends 50 and returns a profit of 10,
   * where an offer of just the missing 20 returns 40.
   */
  lemma OfferIsClippedToCapacityOnly(inv: Investment)
    requires inv.dischargeThreshold == 50 && inv.currentResourcesInvested == 30
    requires inv.resourceCapacity == 50 && inv.resourceDischargeAmount == 60
    ensures inv.ComputePayout(100).resourcesSpent == 50 && inv.ComputePayout(100).resourceProfit == 10
    ensures inv.ComputePayout(inv.ResourcesUntilPayout()).resourcesSpent == 20
    ensures inv.ComputePayout(inv.ResourcesUntilPayout()).resourceProfit == 40
  {
  }

  /**
   * Taking any payout the investment itself computed for a non-negative offer keeps it
   * well formed: the spend never exceeds the capacity, and a spend that does not
   * discharge leaves some input missing.
   */
  lemma PayoutKeepsWellFormed(inv: Investment, added: int)
    requires inv.WellFormed() && 0 <= added
    ensures inv.ApplyPayout(inv.ComputePayout(added)).WellFormed()
    ensures inv.ApplyPayout(inv.ComputePayout(added)).resourceCapacity <= inv.resourceCapacity
  {
  }
}
