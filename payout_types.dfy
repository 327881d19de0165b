/** The payout record an investment reports for a proposed injection of resources. */
module PayoutTypes {

  /**
   * `resourceProfit` is the resource payout minus `resourcesSpent`, so it may be negative;
   * `reward` and the payout are non-zero only when `dischargeReached` holds.
   */
  datatype Payout = Payout(dischargeReached: bool, reward: int, resourceProfit: int, resourcesSpent: int)

  function Min(a: int, b: int): int {
    if a <= b then a else b
  }
}
