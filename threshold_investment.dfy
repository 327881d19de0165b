/**
 * The threshold investment: once the resources accumulated in it reach
 * `dischargeThreshold`, it discharges a fixed reward and a fixed amount of resources.
 */
module ThresholdInvestment {
  import opened PayoutTypes

  /**
   * The share of an offer that the investment takes: nothing for a zero offer,
   * otherwise the offer clipped to the remaining capacity.
   */
  function Spend(capacity: int, added: int): (spent: int)
    ensures added != 0 ==> spent <= capacity && spent <= added && (spent == added || spent == capacity)
    ensures added == 0 ==> spent == 0
    ensures 0 <= added && 0 <= capacity ==> 0 <= spent
  {
    if added == 0 then 0 else Min(added, capacity)
  }

  /** The payout rule shared by every threshold investment; it reads its arguments only. */
  function ThresholdPayout(threshold: int, rewardAmount: int, resourceAmount: int,
                           capacity: int, invested: int, added: int): (p: Payout)
    ensures p.resourcesSpent == Spend(capacity, added)
    ensures p.dischargeReached <==> invested + p.resourcesSpent >= threshold
    ensures p.reward == (if p.dischargeReached then rewardAmount else 0)
    ensures p.resourceProfit + p.resourcesSpent == (if p.dischargeReached then resourceAmount else 0)
  {
    var spent := Spend(capacity, added);
    var discharged := invested + spent >= threshold;
    var rewardPayout := if discharged then rewardAmount else 0;
    var resourcePayout := if discharged then resourceAmount else 0;
    Payout(discharged, rewardPayout, resourcePayout - spent, spent)
  }

  /**
   * Within the capacity an offer discharges the investment exactly when it covers what is
   * still missing to the threshold, and the profit is then the resource amount minus the offer.
   */
  lemma DischargeExactlyWhenThresholdCovered(threshold: int, rewardAmount: int, resourceAmount: int,
                                             capacity: int, invested: int, added: int)
    requires 0 <= added <= capacity
    ensures var p := ThresholdPayout(threshold, rewardAmount, resourceAmount, capacity, invested, added);
      p.resourcesSpent == added &&
      (p.dischargeReached <==> added >= threshold - invested) &&
      p.resourceProfit == (if added >= threshold - invested then resourceAmount - added else -added)
  {
  }

  /**
   * An object whose capacity and discharge totals change in place. The parameters never
   * change after construction, so they are constant fields.
   */
  class InvestmentV1 {
    const id: string
    const name: string
    const dischargeThreshold: int
    const rewardDischargeAmount: int
    const resourceDischargeAmount: int
    const capacityRecoveryRate: int
    var resourceCapacity: int
    var currentResourcesInvested: int
    var totalRewardDischarged: int
    var totalResourcesDischarged: int

    /**
     * A fresh investment starts with full capacity, nothing invested and no resources
     * discharged. The reward discharged is never set when the object is built, so the
     * caller supplies it.
     */
    constructor (id: string, name: string, dischargeThreshold: int, rewardDischargeAmount: int,
                 resourceDischargeAmount: int, capacityRecoveryRate: int, totalRewardDischarged: int)
      ensures this.id == id && this.name == name
      ensures this.dischargeThreshold == dischargeThreshold
      ensures this.rewardDischargeAmount == rewardDischargeAmount
      ensures this.resourceDischargeAmount == resourceDischargeAmount
      ensures this.capacityRecoveryRate == capacityRecoveryRate
      ensures resourceCapacity == dischargeThreshold && currentResourcesInvested == 0
      ensures this.totalRewardDischarged == totalRewardDischarged
      ensures this.totalResourcesDischarged == 0
    {
      this.id := id;
      this.name := name;
      this.dischargeThreshold := dischargeThreshold;
      this.rewardDischargeAmount := rewardDischargeAmount;
      this.resourceDischargeAmount := resourceDischargeAmount;
      resourceCapacity := dischargeThreshold;
      this.capacityRecoveryRate := capacityRecoveryRate;
      currentResourcesInvested := 0;
      this.totalRewardDischarged := totalRewardDischarged;
      this.totalResourcesDischarged := 0;
    }

    /** The payout of offering `added` resources now; reading the object only, it cannot change it. */
    function ComputePayout(added: int): (p: Payout)
      reads this
      ensures p == ThresholdPayout(dischargeThreshold, rewardDischargeAmount, resourceDischargeAmount,
                                   resourceCapacity, currentResourcesInvested, added)
      ensures 0 <= added && 0 <= resourceCapacity ==> 0 <= p.resourcesSpent <= added && p.resourcesSpent <= resourceCapacity
      ensures p.dischargeReached <==> currentResourcesInvested + p.resourcesSpent >= dischargeThreshold
      ensures p.reward == (if p.dischargeReached then rewardDischargeAmount else 0)
    {
      ThresholdPayout(dischargeThreshold, rewardDischargeAmount, resourceDischargeAmount,
                      resourceCapacity, currentResourcesInvested, added)
    }

    /**
     * Bookkeeping after a discharge: the capacity drops by what was invested and each
     * discharged total is decremented by its payout; nothing else changes.
     */
    method UpdateValuesPostDischarge(resourcesInvested: int, rewardPayout: int, resourcesPayout: int)
      modifies this
      ensures resourceCapacity == old(resourceCapacity) - resourcesInvested
      ensures totalRewardDischarged == old(totalRewardDischarged) - rewardPayout
      ensures totalResourcesDischarged == old(totalResourcesDischarged) - resourcesPayout
      ensures currentResourcesInvested == old(currentResourcesInvested)
    {
      resourceCapacity := resourceCapacity - resourcesInvested;
      totalRewardDischarged := totalRewardDischarged - rewardPayout;
      totalResourcesDischarged := totalResourcesDischarged - resourcesPayout;
    }
  }
}
