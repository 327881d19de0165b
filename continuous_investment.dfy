/**
 * The continuous investment: instead of a threshold, two functions map the total
 * resources ever put in to the reward and the resources accrued so far, and a payout
 * discharges whatever has accrued and was not yet discharged.
 */
module ContinuousInvestment {
  import opened Wrappers
  import opened PayoutTypes
  import ThresholdInvestment

  /** What a proposed injection yields: reward, resource profit and the resources actually spent. */
  datatype Accrual = Accrual(reward: int, resourceProfit: int, resourcesSpent: int)

  class InvestmentV2 {
    const id: string
    const name: string
    /** Total resources put in, mapped to the total reward accrued. */
    const resourcesToReward: int -> int
    /** Total resources put in, mapped to the total resources accrued. */
    const resourcesToResources: int -> int
    const rewardPeriod: int
    var resourceCapacity: int
    var totalResourcesInvested: int
    var totalRewardDischarged: int
    var totalResourcesDischarged: int

    constructor (id: string, name: string, resourcesToReward: int -> int, resourcesToResources: int -> int,
                 resourceCapacity: int, totalResourcesInvested: int, rewardPeriod: int,
                 totalRewardDischarged: int, totalResourcesDischarged: int)
      ensures this.id == id && this.name == name
      ensures this.resourcesToReward == resourcesToReward && this.resourcesToResources == resourcesToResources
      ensures this.resourceCapacity == resourceCapacity
      ensures this.totalResourcesInvested == totalResourcesInvested
      ensures this.rewardPeriod == rewardPeriod
      ensures this.totalRewardDischarged == totalRewardDischarged
      ensures this.totalResourcesDischarged == totalResourcesDischarged
    {
      this.id := id;
      this.name := name;
      this.resourcesToReward := resourcesToReward;
      this.resourcesToResources := resourcesToResources;
      this.resourceCapacity := resourceCapacity;
      this.totalResourcesInvested := totalResourcesInvested;
      this.rewardPeriod := rewardPeriod;
      this.totalRewardDischarged := totalRewardDischarged;
      this.totalResourcesDischarged := totalResourcesDischarged;
    }

    /**
     * The effect of offering `added` resources now: the investment takes the offer clipped to
     * its capacity (nothing for a zero offer), and pays out what its total would accrue beyond
     * what was already discharged, less the spend for the resource profit. It only reads the object.
     */
    function ComputePayout(added: int): (p: Accrual)
      reads this
      ensures p.resourcesSpent == ThresholdInvestment.Spend(resourceCapacity, added)
      ensures p.reward == resourcesToReward(totalResourcesInvested + p.resourcesSpent) - totalRewardDischarged
      ensures p.resourceProfit + p.resourcesSpent ==
              resourcesToResources(totalResourcesInvested + p.resourcesSpent) - totalResourcesDischarged
    {
      var spent := ThresholdInvestment.Spend(resourceCapacity, added);
      var rewardPayout := resourcesToReward(totalResourcesInvested + spent) - totalRewardDischarged;
      var resourcePayout := resourcesToResources(totalResourcesInvested + spent) - totalResourcesDischarged;
      Accrual(rewardPayout, resourcePayout - spent, spent)
    }

    /** Offering more than the capacity is the same as offering exactly the capacity. */
    lemma OfferBeyondCapacitySaturates(added: int)
      requires 0 < resourceCapacity <= added
      ensures ComputePayout(added) == ComputePayout(resourceCapacity)
    {
    }

    /** The most the agent can spend here: its available resources clipped to the capacity. */
    function Investible(available: int): int
      reads this
    {
      Min(available, resourceCapacity)
    }

    /**
     * The payout at the smallest expenditure 0, 1, ..., Investible(available) whose resource
     * profit is `target`, or nothing when no expenditure in that range yields it.
     */
    method GetPayoutGivenResourceParameters(available: int, target: int) returns (r: Option<Accrual>)
      ensures r.None? <==> forall e :: 0 <= e <= Investible(available) ==> ComputePayout(e).resourceProfit != target
      ensures r.Some? ==> exists e :: (0 <= e <= Investible(available) && r.value == ComputePayout(e) &&
        forall e' :: 0 <= e' < e ==> ComputePayout(e').resourceProfit != target)
      ensures r.Some? ==> r.value.resourceProfit == target
    {
      var investible := Min(available, resourceCapacity);
      var e := 0;
      while e < investible + 1
        invariant 0 <= e && (investible >= 0 ==> e <= investible + 1)
        invariant forall e' :: 0 <= e' < e ==> ComputePayout(e').resourceProfit != target
      {
        var possible := ComputePayout(e);
        if possible.resourceProfit == target {
          return Some(possible);
        }
        e := e + 1;
      }
      return None;
    }

    /** The least resource profit over expenditures 0 .. n. */
    function MinProfitUpTo(n: nat): (m: int)
      reads this
      ensures forall e :: 0 <= e <= n ==> m <= ComputePayout(e).resourceProfit
      ensures exists e :: 0 <= e <= n && m == ComputePayout(e).resourceProfit
    {
      if n == 0 then ComputePayout(0).resourceProfit
      else
        var rest := MinProfitUpTo(n - 1);
        var here := ComputePayout(n).resourceProfit;
        if here < rest then here else rest
    }

    /** The greatest resource profit over expenditures 0 .. n. */
    function MaxProfitUpTo(n: nat): (m: int)
      reads this
      ensures forall e :: 0 <= e <= n ==> ComputePayout(e).resourceProfit <= m
      ensures exists e :: 0 <= e <= n && m == ComputePayout(e).resourceProfit
    {
      if n == 0 then ComputePayout(0).resourceProfit
      else
        var rest := MaxProfitUpTo(n - 1);
        var here := ComputePayout(n).resourceProfit;
        if here > rest then here else rest
    }

    /**
     * The least resource profit the agent can make here with `available` resources; none
     * when nothing can be spent (a negative budget or capacity), where the code fails on an
     * empty `min`.
     */
    function GetMinResourceProfit(available: int): (r: Option<int>)
      reads this
      ensures r.None? <==> Investible(available) < 0
      ensures r.Some? ==> forall e :: 0 <= e <= Investible(available) ==> r.value <= ComputePayout(e).resourceProfit
      ensures r.Some? ==> exists e :: 0 <= e <= Investible(available) && r.value == ComputePayout(e).resourceProfit
    {
      var investible := Investible(available);
      if investible < 0 then None else Some(MinProfitUpTo(investible))
    }

    /** The greatest resource profit the agent can make here with `available` resources. */
    function GetMaxResourceProfit(available: int): (r: Option<int>)
      reads this
      ensures r.None? <==> Investible(available) < 0
      ensures r.Some? ==> forall e :: 0 <= e <= Investible(available) ==> ComputePayout(e).resourceProfit <= r.value
      ensures r.Some? ==> exists e :: 0 <= e <= Investible(available) && r.value == ComputePayout(e).resourceProfit
    {
      var investible := Investible(available);
      if investible < 0 then None else Some(MaxProfitUpTo(investible))
    }

    /**
     * The two bounds bracket every reachable profit, and a target outside them has no
     * expenditure that yields it.
     */
    lemma ProfitBoundsBracket(available: int, target: int)
      requires Investible(available) >= 0
      ensures GetMinResourceProfit(available).value <= GetMaxResourceProfit(available).value
      ensures target < GetMinResourceProfit(available).value || GetMaxResourceProfit(available).value < target ==>
        forall e :: 0 <= e <= Investible(available) ==> ComputePayout(e).resourceProfit != target
    {
      var lo := GetMinResourceProfit(available).value;
      var e :| 0 <= e <= Investible(available) && lo == ComputePayout(e).resourceProfit;
    }

    /**
     * Bookkeeping after a discharge: the capacity drops by what was invested and each
     * discharged total is decremented by its payout; nothing else changes.
     */
    method UpdateValuesPostDischarge(resourcesInvested: int, rewardPayout: int, resourcesPayout: int)
      modifies this
      ensures resourceCapacity == old(resourceCapacity) - resourcesInvested
      ensures totalRewardDischarged == old(totalRewardDischarged) - rewardPayout
      ensures totalResourcesDischarged == old(totalResourcesDischarged) - resourcesPayout
      ensures totalResourcesInvested == old(totalResourcesInvested)
    {
      resourceCapacity := resourceCapacity - resourcesInvested;
      totalRewardDischarged := totalRewardDischarged - rewardPayout;
      totalResourcesDischarged := totalResourcesDischarged - resourcesPayout;
    }
  }
}
