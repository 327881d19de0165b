/**
 * End-of-step capacity recovery and the per-investment resource-profit summaries
 * computed from payouts.
 */
module InvestmentUtils {
  import opened PayoutTypes
  import opened Ordering
  import opened MinimalInvestment

  /** Capacity after one step of recovery: it grows by the rate but never past the threshold. */
  function RecoveredCapacity(capacity: int, rate: int, threshold: int): (c: int)
    ensures c == Min(capacity + rate, threshold)
  {
    if capacity + rate > threshold then threshold else capacity + rate
  }

  /** One investment after recovery; only its capacity changes. */
  function Recover(inv: Investment): (r: Investment)
    ensures SameParameters(r, inv)
    ensures r.currentResourcesInvested == inv.currentResourcesInvested
    ensures r.resourceCapacity == Min(inv.resourceCapacity + inv.capacityRecoveryRate, inv.dischargeThreshold)
    ensures r.resourceCapacity <= r.dischargeThreshold
  {
    inv.(resourceCapacity := RecoveredCapacity(inv.resourceCapacity, inv.capacityRecoveryRate, inv.dischargeThreshold))
  }

  /** Every investment of a list after recovery, in the same order. */
  function RecoverAll(s: seq<Investment>): (r: seq<Investment>)
    ensures |r| == |s|
    ensures forall k :: 0 <= k < |s| ==> r[k] == Recover(s[k])
  {
    seq(|s|, k requires 0 <= k < |s| => Recover(s[k]))
  }

  /** Recovers, in place, the capacity of every investment in `a`. */
  method UpdateInvestments(a: array<Investment>)
    modifies a
    ensures a[..] == RecoverAll(old(a[..]))
  {
    for i := 0 to a.Length
      invariant forall k :: 0 <= k < i ==> a[k] == Recover(old(a[k]))
      invariant forall k :: i <= k < a.Length ==> a[k] == old(a[k])
    {
      var inv := a[i];
      if inv.resourceCapacity + inv.capacityRecoveryRate > inv.dischargeThreshold {
        a[i] := inv.(resourceCapacity := inv.dischargeThreshold);
      } else {
        a[i] := inv.(resourceCapacity := inv.resourceCapacity + inv.capacityRecoveryRate);
      }
    }
  }

  /** At full capacity, with a non-negative rate, recovery changes nothing. */
  lemma RecoveryIdempotentAtSaturation(inv: Investment)
    requires inv.resourceCapacity == inv.dischargeThreshold && 0 <= inv.capacityRecoveryRate
    ensures Recover(inv) == inv
    ensures Recover(Recover(inv)) == Recover(inv)
  {
  }

  /** Recovery never lowers the capacity and keeps an investment well formed. */
  lemma RecoveryKeepsWellFormed(inv: Investment)
    requires inv.WellFormed()
    ensures Recover(inv).WellFormed()
    ensures inv.resourceCapacity <= Recover(inv).resourceCapacity
  {
  }

  /** The highest resource profit any of the investments offers for the budget. */
  function GetMaxPossibleResources(investments: seq<Investment>, resources: int): (m: int)
    requires |investments| > 0
    ensures forall k :: 0 <= k < |investments| ==> investments[k].ComputePayout(resources).resourceProfit <= m
    ensures exists k :: 0 <= k < |investments| && investments[k].ComputePayout(resources).resourceProfit == m
  {
    var key := (i: Investment) => (i.ComputePayout(resources).resourceProfit, 0);
    FirstMaxIndexIsFirstMax(investments, key);
    investments[FirstMaxIndex(investments, key)].ComputePayout(resources).resourceProfit
  }

  /** Least and greatest resource profit of one investment, with the spend each is reached at. */
  datatype GainBound = GainBound(id: string, minProfit: int, minSpent: int, maxProfit: int, maxSpent: int)

  /** The payouts of offering 0, 1, ..., resources. */
  function PossiblePayouts(inv: Investment, resources: nat): (ps: seq<Payout>)
    ensures |ps| == resources + 1
    ensures forall r :: 0 <= r <= resources ==> ps[r] == inv.ComputePayout(r)
  {
    seq(resources + 1, r requires 0 <= r <= resources => inv.ComputePayout(r))
  }

  /**
   * The profit range over every offer from 0 to `resources`: both ends are attained, the
   * first offer that attains each is the one recorded, and the minimum is at most the maximum.
   */
  function GainBoundOf(inv: Investment, resources: int): (b: GainBound)
    requires 0 <= resources
    ensures b.id == inv.id
    ensures b.minProfit <= b.maxProfit
    ensures forall r :: 0 <= r <= resources ==> b.minProfit <= inv.ComputePayout(r).resourceProfit <= b.maxProfit
    ensures exists r :: (0 <= r <= resources && inv.ComputePayout(r).resourceProfit == b.minProfit &&
                         inv.ComputePayout(r).resourcesSpent == b.minSpent &&
                         forall r' :: 0 <= r' < r ==> inv.ComputePayout(r').resourceProfit > b.minProfit)
    ensures exists r :: (0 <= r <= resources && inv.ComputePayout(r).resourceProfit == b.maxProfit &&
                         inv.ComputePayout(r).resourcesSpent == b.maxSpent &&
                         forall r' :: 0 <= r' < r ==> inv.ComputePayout(r').resourceProfit < b.maxProfit)
  {
    var ps := PossiblePayouts(inv, resources);
    var key := (p: Payout) => (p.resourceProfit, 0);
    FirstMinIndexIsFirstMin(ps, key);
    FirstMaxIndexIsFirstMax(ps, key);
    var lo := FirstMinIndex(ps, key);
    var hi := FirstMaxIndex(ps, key);
    assert ps[0] == inv.ComputePayout(0);
    GainBound(inv.id, ps[lo].resourceProfit, ps[lo].resourcesSpent, ps[hi].resourceProfit, ps[hi].resourcesSpent)
  }

  /** One profit range per investment, in input order. */
  method GetResourceGainBounds(investments: seq<Investment>, resources: int) returns (bounds: seq<GainBound>)
    requires 0 <= resources
    ensures |bounds| == |investments|
    ensures forall k :: 0 <= k < |investments| ==> bounds[k] == GainBoundOf(investments[k], resources)
  {
    bounds := [];
    for i := 0 to |investments|
      invariant |bounds| == i
      invariant forall k :: 0 <= k < i ==> bounds[k] == GainBoundOf(investments[k], resources)
    {
      bounds := bounds + [GainBoundOf(investments[i], resources)];
    }
  }
}
