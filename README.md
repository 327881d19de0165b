# Bounded-lookahead investment search, in Dafny

This project models the deterministic core of *embodied rationality theory*. In it, an agent
holding a budget of resources chooses, at each timestep, one investment to put resources into.

An investment pays out when the resources put into it reach its discharge threshold. The payout is:
- a fixed reward;
- a fixed amount of resources;
- a capacity reduction, which recovers by a fixed rate per timestep.

The core is `boundedly_optimise_max_investment`, a branch-and-bound search over resource paths.
- **Paths.** A path is one sequence of choices, its ledger of balances and rewards, and its own
  copy of the world of investments.
- **First step.** It forks one path per non-dominated consumption choice of every investment that
  survives the best-result accumulator.
- **Later steps.** Each later step:
  - drops dead paths (no resources left);
  - prunes investments whose discharge is unreachable in the time left;
  - prunes investments that fail the reward or the resource lower bound;
  - prunes investments the accumulator shows to be dominated;
  - forks a child per remaining choice.
- **Result.** The answer is the path with the most reward, then the most resources left.

The model has these modules:
- **`Wrappers`, `Ordering`, `PayoutTypes`.**
  - `Option`/`Result`.
  - The Python `max`/`min`-with-key: the first extreme element, with lexicographic tuple keys.
  - A stable `sorted`.
  - The payout record.
- **`ThresholdInvestment`.** The threshold payout rule, and the `Investment` class of
  `models/deterministic/v1/classes.py` as a Dafny class updated in place.
- **`MinimalInvestment`.** The investment the search works on, as a value. The search copies an
  investment before each update, so a value is exact.
- **`InvestmentUtils`.** Capacity recovery. `update_investments` is a method over an array that
  it updates in place. Also here: the best resource profit, and the per-investment gain bounds.
- **`Pruning`.**
  - The reward-maximising selection.
  - The two lower bounds.
  - The best-result accumulator, with proofs that it only prunes dominated choices.
  - The generation of non-dominated consumption choices.
- **`Reachability`.** The sliding-window unreachability test, proved against a functional
  specification. The specification includes the case where the original loop never ends.
- **`Paths`.** The resource-path record, and how the first step and later steps build a path.
- **`SearchSpec`.** The search as functions, step by step:
  - the shared accumulator of the first step, and the fresh one per path of later steps;
  - the reachability test, the two lower bounds and the ascending sort of later steps;
  - the errors that end the search.

  Lemmas say when each step fails and which paths each step keeps. The paths the search can
  hold are also characterised inductively (`Explored`), with invariants about their ledgers and
  worlds.
- **`Search`.** The search itself, as methods with loops. Each method is proved to compute the
  matching function of `SearchSpec`, so the outcome of the whole search is `SearchSpec.SearchResult`.
- **`ContinuousInvestment`.** The continuous-payout `Investment` class of
  `models/deterministic/v2/classes.py`, with its payout search and its profit bounds.

Python's `set` of investments is a sequence with distinct identifiers, iterated in sequence order.
Integers are unbounded, as in Python.

## Model

| member | source | states |
|---|---|---|
| ThresholdInvestment.Spend | models/deterministic/v1/classes.py:65-67 | the spend is 0 for a zero offer, otherwise the offer clipped to the capacity (never above either, equal to one of them) |
| ThresholdInvestment.ThresholdPayout | models/deterministic/v1/classes.py:57-77 | discharge happens exactly when invested plus spent reaches the threshold; reward and resource payout are the discharge amounts then and 0 otherwise; profit is payout minus spend |
| ThresholdInvestment.DischargeExactlyWhenThresholdCovered | models/deterministic/v1/classes.py:65-71 | for an offer within capacity, discharge happens exactly when the offer covers the rest of the threshold |
| ThresholdInvestment.InvestmentV1.constructor | models/deterministic/v1/classes.py:37-55 | a new investment has capacity equal to its threshold, nothing invested and no resources discharged; its parameters are stored as given |
| ThresholdInvestment.InvestmentV1.ComputePayout | models/deterministic/v1/classes.py:57-77 | the payout follows the threshold rule for the object's current capacity and investment; the spend is within the offer and the capacity |
| ThresholdInvestment.InvestmentV1.UpdateValuesPostDischarge | models/deterministic/v1/classes.py:79-85 | capacity and both discharged totals drop by the given amounts; the invested total is unchanged |
| MinimalInvestment.Investment.ResourcesUntilPayout | models/deterministic/minimal/algorithms.py:246-248 | for a well-formed investment, the resources still missing before discharge are positive and at most the threshold |
| MinimalInvestment.Investment.IsNetResourcePositive | models/deterministic/minimal/algorithms.py:249 | for an untouched investment whose capacity covers its threshold, it holds exactly when paying the threshold makes a resource profit |
| MinimalInvestment.Investment.ResourcesUntilPayoutPostInjection | models/deterministic/minimal/algorithms.py:200-202 | what is still missing once the spend is injected without a discharge; it is at most zero exactly when the spend reaches the threshold |
| MinimalInvestment.Investment.ComputePayout | models/deterministic/minimal/algorithms.py:250-251 | the spend is the offer clipped to the capacity (0 for no offer), so an offer that fits is spent in full; discharge happens exactly when invested plus spent reaches the threshold; the reward and resource payout are the discharge amounts then and 0 otherwise; the profit is the payout minus the spend |
| MinimalInvestment.OfferIsClippedToCapacityOnly | models/deterministic/minimal/algorithms.py:246-251 | with 30 of 50 invested and capacity 50, an offer of 100 spends 50 for a profit of 10, and an offer of the missing 20 returns 40 |
| MinimalInvestment.MissingIsLeastDischargingOffer | models/deterministic/minimal/algorithms.py:246-250 | no offer smaller than what is missing discharges, and offering exactly what is missing discharges when it fits the capacity |
| MinimalInvestment.Investment.UpdateValuesPostInvestment | models/deterministic/minimal/algorithms.py:280-283 | parameters are unchanged; capacity drops by the spend; the running investment resets on discharge and grows by the spend otherwise |
| MinimalInvestment.PayoutKeepsWellFormed | models/deterministic/minimal/algorithms.py:280-283 | applying any payout for a non-negative offer keeps an investment well formed and never raises its capacity |
| InvestmentUtils.RecoveredCapacity | models/deterministic/utils.py:54-62 | recovered capacity is the capacity plus the rate, capped at the threshold |
| InvestmentUtils.Recover | models/deterministic/utils.py:54-62 | recovery changes only the capacity, to the capped recovered value, which never exceeds the threshold |
| InvestmentUtils.RecoverAll | models/deterministic/utils.py:54-62 | every investment of the world recovers, position by position |
| InvestmentUtils.UpdateInvestments | models/deterministic/utils.py:54-62 | the array is updated in place to the recovered world |
| InvestmentUtils.RecoveryIdempotentAtSaturation | models/deterministic/utils.py:59-62 | an investment at full capacity is unchanged by recovery, so recovery is idempotent there |
| InvestmentUtils.RecoveryKeepsWellFormed | models/deterministic/utils.py:59-62 | recovery keeps an investment well formed and never lowers its capacity |
| InvestmentUtils.GetMaxPossibleResources | models/deterministic/utils.py:8-14 | the result is the greatest resource profit any investment yields for the budget, and some investment attains it |
| InvestmentUtils.PossiblePayouts | models/deterministic/utils.py:37-47 | the payouts for each offer 0 .. resources, in order |
| InvestmentUtils.GainBoundOf | models/deterministic/utils.py:37-47 | the bound keeps the id; its minimum and maximum bracket every payout's profit for offers 0 .. resources, and each is attained by the first such offer |
| InvestmentUtils.GetResourceGainBounds | models/deterministic/utils.py:37-47 | one bound per investment, in order, each the specified gain bound |
| Ordering.FirstMaxIndexIsFirstMax | models/deterministic/minimal/algorithms.py:270 | the index `max` picks holds a maximal key, and no earlier element reaches it, so ties go to the first |
| Ordering.FirstMinIndexIsFirstMin | models/deterministic/utils.py:42 | the index `min` picks holds a minimal key, and no earlier element reaches it, so ties go to the first |
| Ordering.SortBy | models/deterministic/minimal/algorithms.py:320-322 | the result is a permutation of the input |
| Ordering.SortByIsSorted | models/deterministic/minimal/algorithms.py:320-322 | the result is sorted by key |
| Ordering.InsertKeepsSorted | models/deterministic/minimal/algorithms.py:128-131 | inserting into a sorted sequence keeps it sorted |
| Pruning.SelectMaxInvestmentByRewardMaximisation | models/deterministic/minimal/algorithms.py:15-29 | the chosen investment's payout has the greatest (reward, resource profit) of all, and no earlier investment ties with it |
| Pruning.ResourceBoundIsFirstMaxProfit | models/deterministic/minimal/algorithms.py:55-68 | the bound is (reward, resource profit) of the payout of the first investment whose resource profit is the greatest of all |
| Pruning.RewardBoundIsFirstMaxReward | models/deterministic/minimal/algorithms.py:71-81 | the bound is (resource profit, reward) of the payout of the first investment with the greatest reward discharge amount |
| Pruning.GetMaxPossibleResourceSum | models/deterministic/minimal/algorithms.py:104-105 | no investments leave the balance as it is; one investment adds its discharge amount less what it still needs |
| Pruning.ResourceGainSign | models/deterministic/minimal/algorithms.py:104-105 | the summed gain is non-negative when every gain is, and non-positive when every gain is |
| Pruning.MaxPossibleSumBounds | models/deterministic/minimal/algorithms.py:104-105 | the maximal sum is at least the balance when every gain is non-negative, and at most the balance when every gain is non-positive |
| Pruning.ResourceGainPermutationInvariant | models/deterministic/minimal/algorithms.py:104-105 | the summed discharge gain does not depend on the order of the investments |
| Pruning.UpdateBestResultSoFar | models/deterministic/minimal/algorithms.py:161-235 | the first candidate is always kept and recorded; a discharging candidate is rejected exactly when the best discharge beats it, and once kept it replaces the best discharge exactly when it covers it; a latent candidate is rejected exactly when the best latent result beats it, and once kept it replaces that result exactly when it covers it (or becomes it when there is none); the other result is never changed |
| Pruning.UpdateKeepsJustified | models/deterministic/minimal/algorithms.py:161-235 | the accumulator only ever holds results of candidates it has seen |
| Pruning.PrunedChoiceIsDominated | models/deterministic/minimal/algorithms.py:161-235 | a candidate the accumulator rejects is dominated by one seen earlier |
| Pruning.NondominatedChoicesShape | models/deterministic/minimal/algorithms.py:238-251 | no choice spends more than the threshold, capacity and budget allow; a net-positive investment that can discharge gets the single discharging choice, and any other investment gets one choice per spend below the maximum |
| Pruning.EnumeratedChoicesNeverDischarge | models/deterministic/minimal/algorithms.py:251 | the enumerated choices never discharge: no reward, and a profit of minus the spend |
| Pruning.SingleChoiceDominatesSmallerSpends | models/deterministic/minimal/algorithms.py:246-250 | the single discharging choice is at least as good as every smaller spend, in both reward and resource profit |
| Pruning.ChoiceIsPayoutOfOffer | models/deterministic/minimal/algorithms.py:246-251 | every generated choice is the payout of some non-negative offer |
| Pruning.MaxChoice | models/deterministic/minimal/algorithms.py:344 | the choice is one of the choices |
| Pruning.MaxChoiceIsMax | models/deterministic/minimal/algorithms.py:344 | no choice has a greater (reward, resource profit) than the one picked |
| Pruning.MaxChoiceIsFirstAmongTies | models/deterministic/minimal/algorithms.py:344 | every choice before the one picked has a strictly smaller key, so ties go to the first, as `max` does |
| Reachability.TemporallyAvailable | models/deterministic/minimal/algorithms.py:121-127 | an order-preserving filter: a single investment is kept exactly when it can recover to its threshold within the time left |
| Reachability.TemporallyAvailableAppend | models/deterministic/minimal/algorithms.py:121-125 | filtering a concatenation concatenates the filtered parts, so the original order is kept |
| Reachability.TemporallyAvailableCounts | models/deterministic/minimal/algorithms.py:121-125 | an investment occurs in the result as often as in the input when it recovers in time, and not at all otherwise |
| Reachability.FirstSufficientWindow | models/deterministic/minimal/algorithms.py:136-140 | the first window whose gain reaches the target; none exactly when no window from the start does |
| Reachability.ReachabilitySpec | models/deterministic/minimal/algorithms.py:108-134 | a level already covered is reachable; an uncovered level is unreachable when fewer investments than steps recover in time, and when the balance plus the gains of the most profitable investments, one per step, falls short; any other verdict than unreachable comes with some time left and no more steps than investments |
| Reachability.UnreachableVerdictCanBeWrong | models/deterministic/minimal/algorithms.py:114-127 | one investment that discharges 100 resources for a spend of 1, and a balance of 1: the test says a level of 50 is unreachable in 2 steps, yet a single spend reaches it |
| Reachability.IsResourceLevelUnreachable | models/deterministic/minimal/algorithms.py:108-145 | the verdict equals the specification: unreachable with no time, reachable when already covered, unreachable when the best prefix falls short, otherwise the sliding-window answer or divergence |
| Reachability.SlideWindow | models/deterministic/minimal/algorithms.py:136-140 | the loop finds the first sufficient window, and finds nothing exactly when none exists |
| Reachability.IsInvestmentDischargeUnreachable | models/deterministic/minimal/algorithms.py:148-153 | the verdict is reachability of the investment's threshold from the path's balance, in the given world and time |
| Reachability.NoTimeLeftIsUnreachable | models/deterministic/minimal/algorithms.py:117-134 | with no time left and too little resources, the level is unreachable |
| Reachability.ReachableVerdictHasWitness | models/deterministic/minimal/algorithms.py:132-145 | a reachable verdict means the level is already covered or some window's gain reaches it |
| Reachability.DivergesWhenNoWindowSuffices | models/deterministic/minimal/algorithms.py:132-140 | the loop diverges exactly when time is left, the level is not covered, the best prefix reaches it, and no window does |
| Reachability.DivergenceExample | models/deterministic/minimal/algorithms.py:136-140 | a concrete world of three investments for which the loop never ends |
| Paths.WithoutId | models/deterministic/minimal/algorithms.py:294 | an order-preserving filter: a single investment is kept exactly when its id is another one |
| Paths.WithoutIdAppend | models/deterministic/minimal/algorithms.py:294 | filtering a concatenation concatenates the filtered parts, so the original order is kept |
| Paths.WithoutIdCounts | models/deterministic/minimal/algorithms.py:294 | an investment with the removed id does not occur in the result, and any other occurs as often as in the input |
| Paths.InitialPath | models/deterministic/minimal/algorithms.py:284-297 | a first-step path has a non-empty world, the chosen id as its only choice, one log entry each for balance and reward, a balance of the budget plus the choice's profit, and the choice's reward |
| Paths.ChildPath | models/deterministic/minimal/algorithms.py:353-379 | a child adds the choice's spend, profit and reward to the parent's totals, appends the chosen id and the new balance and reward to the logs, and keeps the world's ids in order, with every investment recovered and only the chosen id taking the choice |
| Paths.ReplaceById | models/deterministic/minimal/algorithms.py:362-364 | the investment with the chosen id is replaced, all others kept in place |
| Paths.WithoutIdKeepsWellFormed | models/deterministic/minimal/algorithms.py:294 | removing an id from a well-formed world leaves it well formed |
| Paths.WithoutPresentId | models/deterministic/minimal/algorithms.py:294 | with distinct ids, removing a present id removes exactly one investment |
| Paths.InitialPathShape | models/deterministic/minimal/algorithms.py:284-297 | a first-step path spends the choice's spend, holds budget plus profit and the reward, records one step, and has a world of the same size and ids |
| Paths.InitialPathKeepsOthers | models/deterministic/minimal/algorithms.py:293-294 | the other investments of a first-step world are carried over unchanged |
| SearchSpec.BestPath | models/deterministic/minimal/algorithms.py:383 | no paths exactly when there is no path; otherwise one of the paths, with the greatest (reward, balance), and no earlier path has a key as great, so ties go to the first |
| SearchSpec.InitialStepStops | models/deterministic/minimal/algorithms.py:265-277 | at the first step an investment stops the search exactly when it has no choice, and the error is then `EmptyChoiceList` |
| SearchSpec.InitialSweepFails | models/deterministic/minimal/algorithms.py:265-298 | the first step fails exactly when some remaining investment has no choice, whatever the accumulator, and then with `EmptyChoiceList` |
| SearchSpec.InitialSweepOpens | models/deterministic/minimal/algorithms.py:265-298 | a first step over some investment that does not fail opens at least one path |
| SearchSpec.InitialSweepPaths | models/deterministic/minimal/algorithms.py:279-297 | every path the first step opens is a first-step path of one investment's choice |
| SearchSpec.ChildStepForks | models/deterministic/minimal/algorithms.py:324-379 | an investment of a later step forks only when it passed the reachability test and both lower bounds, and each fork is the child of one of its choices |
| SearchSpec.ChildSweepChildren | models/deterministic/minimal/algorithms.py:324-379 | every child a later step forks comes from an investment of the sorted world that passed the reachability test and both lower bounds |
| SearchSpec.ChildSweepFails | models/deterministic/minimal/algorithms.py:324-351 | a later step fails either with `WindowDiverges`, when the reachability loop for some investment never ends, or with `EmptyChoiceList`, when some investment that passed the tests has no choice |
| SearchSpec.ChildrenAreChildren | models/deterministic/minimal/algorithms.py:307-379 | a path forks children only while alive, each a child of one of its choices for the initial budget, by an investment of its world that passed the reachability test and both lower bounds |
| SearchSpec.NextPathsExplored | models/deterministic/minimal/algorithms.py:302-380 | one more step turns paths explored for t steps into paths explored for t+1 steps |
| SearchSpec.LookAheadFromExplored | models/deterministic/minimal/algorithms.py:302-380 | the later steps turn paths explored for t steps into paths explored for the full lookahead |
| SearchSpec.FinalPathsExplored | models/deterministic/minimal/algorithms.py:254-380 | every final path is explored for the full lookahead |
| SearchSpec.SearchResultIsBestExplored | models/deterministic/minimal/algorithms.py:254-383 | the path found is a final path with the greatest (reward, balance); it is explored for the full lookahead, has a ledger entry per step, and (for distinct ids) a world of the original investments |
| SearchSpec.SearchFailsOnMissingChoice | models/deterministic/minimal/algorithms.py:265-298 | the search fails with `EmptyChoiceList` whenever some investment has no choice; with one step and some investment, it otherwise finds a path |
| SearchSpec.DivergenceNeedsTwoSteps | models/deterministic/minimal/algorithms.py:302-324 | the search can only end with `WindowDiverges` when the lookahead is at least two steps |
| SearchSpec.ExploredLedger | models/deterministic/minimal/algorithms.py:284-296 | a path after n steps has n choices and n log entries, ends its logs at its balance and reward, and was alive before each step |
| SearchSpec.ExploredWorld | models/deterministic/minimal/algorithms.py:362-365 | every explored world has the original investments' ids and size, chooses only known ids, and stays well formed |
| SearchSpec.ChosenStaysWellFormed | models/deterministic/minimal/algorithms.py:280-286 | applying a generated choice and recovering keeps an investment well formed |
| SearchSpec.LoneDischargeBalance | models/deterministic/minimal/algorithms.py:246-250 | one net-positive investment at full capacity, with a budget covering its threshold, is discharged at once: spend the threshold, gain the resource amount and the reward |
| SearchSpec.SingleDischargeExample | models/deterministic/minimal/algorithms.py:284-285 | threshold 50, reward 10, resources 60, budget 50, one step: the path spends 50 and ends with balance 60 and reward 10 |
| Search.ForkInitialChoices | models/deterministic/minimal/algorithms.py:279-297 | one first-step path per choice, in choice order, equal to the specified forks |
| Search.ScreenInitial | models/deterministic/minimal/algorithms.py:265-297 | one investment of the first step: a stop when it has no choice, a skip when the shared accumulator rejects its best choice, and otherwise its forks and the updated accumulator |
| Search.AdvanceInitial | models/deterministic/minimal/algorithms.py:265-297 | one investment of the first step: either the error the first step ends with, or the gathered paths and accumulator from which the rest of the step continues to the same result |
| Search.ExpandInitial | models/deterministic/minimal/algorithms.py:265-298 | the first step computes exactly the specified first-step paths or error |
| Search.ForkChildren | models/deterministic/minimal/algorithms.py:353-379 | one child per choice, in choice order, equal to the specified children |
| Search.ScreenChild | models/deterministic/minimal/algorithms.py:314-379 | one investment of a later step: stop on a diverging reachability loop, skip when unreachable or failing a lower bound, stop when it has no choice, skip when the accumulator rejects it, and otherwise its children |
| Search.ChooseChildren | models/deterministic/minimal/algorithms.py:343-379 | an investment that passed the tests: a stop when it has no choice, a skip when the accumulator rejects its best choice, and otherwise its children and the updated accumulator |
| Search.ExpandPath | models/deterministic/minimal/algorithms.py:307-379 | one path at a later step yields exactly its specified children or error: none for a dead path, otherwise the sweep over its world sorted by amounts with a fresh accumulator |
| Search.ExpandAll | models/deterministic/minimal/algorithms.py:302-380 | one later step over all paths yields exactly the specified next paths or the first error |
| Search.LookAhead | models/deterministic/minimal/algorithms.py:302-380 | the later steps yield exactly the specified final paths or the first error |
| Search.BoundedlyOptimiseMaxInvestment | models/deterministic/minimal/algorithms.py:254-383 | the outcome is exactly the specified search result; a path it finds is explored for the full lookahead, with a ledger entry per step and (for distinct ids) a world of the original investments |
| ContinuousInvestment.InvestmentV2.constructor | models/deterministic/v2/classes.py:32-52 | the parameters and totals are stored as given |
| ContinuousInvestment.InvestmentV2.ComputePayout | models/deterministic/v2/classes.py:74-99 | the spend is the offer clipped to capacity; the reward is the accrued reward at the new total less what was discharged; profit plus spend is the accrued resources less what was discharged |
| ContinuousInvestment.InvestmentV2.OfferBeyondCapacitySaturates | models/deterministic/v2/classes.py:83-85 | offering more than the capacity pays the same as offering the capacity |
| ContinuousInvestment.InvestmentV2.GetPayoutGivenResourceParameters | models/deterministic/v2/classes.py:116-124 | the payout at the smallest expenditure with the target profit; none exactly when no expenditure up to the investible amount yields it |
| ContinuousInvestment.InvestmentV2.MinProfitUpTo | models/deterministic/v2/classes.py:126-131 | a lower bound on the profit of every expenditure up to n, attained by one |
| ContinuousInvestment.InvestmentV2.MaxProfitUpTo | models/deterministic/v2/classes.py:133-135 | an upper bound on the profit of every expenditure up to n, attained by one |
| ContinuousInvestment.InvestmentV2.GetMinResourceProfit | models/deterministic/v2/classes.py:126-131 | none exactly when nothing can be invested; otherwise the least profit over the investible range, attained |
| ContinuousInvestment.InvestmentV2.GetMaxResourceProfit | models/deterministic/v2/classes.py:133-135 | none exactly when nothing can be invested; otherwise the greatest profit over the investible range, attained |
| ContinuousInvestment.InvestmentV2.ProfitBoundsBracket | models/deterministic/v2/classes.py:116-135 | the minimum is at most the maximum, and a target outside them is yielded by no expenditure |
| ContinuousInvestment.InvestmentV2.UpdateValuesPostDischarge | models/deterministic/v2/classes.py:101-107 | capacity and both discharged totals drop by the given amounts; the invested total is unchanged |

## Left out

- Printing and logging in the search: they have no effect on the result.
- `select_max_investment_by_reward_over_resources_profit` and `select_max_investment_by_fixed_tradeoff_heuristic`: the search does not call them. Both unpack the four-field payout record into three names (algorithms.py:39 and 51), which raises, and the second weighs its key by a floating-point bias.
- The drafts and alternative algorithms in other modules (`v1/algorithms.py`, `minimal_unselfish`, `class_1`, `deterministic_model`), the simulation loops and the command line: these are the context around the search, not the search.
- `models/deterministic/minimal/classes.py` is not part of this model, and `models/deterministic/minimal/algorithms.py` only calls the members of its class. The definitions of `MinimalInvestment.Investment` are therefore assumptions of this model: resources until payout is the threshold less what is invested; an investment is net resource positive when its resource amount exceeds its threshold; the payout rule is the one of `v1/classes.py`.
- MinimalInvestment.Investment.ComputePayout: the spend is the offer clipped to the capacity, as in `v1/classes.py`, and not also clipped to what is still missing. With 30 of 50 invested and a capacity of 50, an offer of 100 spends 50 for a profit of 10, where spending only the missing 20 would return 40 (`MinimalInvestment.OfferIsClippedToCapacityOnly`). The search never offers more than what is missing (algorithms.py:246), so its results do not depend on this assumption.
- The default offer of 0 for `compute_payout` (`v1/classes.py:57`, `v2/classes.py:74`): every call in the search passes an offer, so the model always takes one.
- `max` over an empty list raises in the code. `InvestmentUtils.GetMaxPossibleResources` and the three selectors of `Pruning` (`SelectMaxInvestmentByRewardMaximisation`, `ComputeMinRewardBoundByResourceMaxing`, `ComputeMinResourceBoundByRewardMaxing`) therefore require a non-empty list. The search calls the bounds only on a path's world, which is never empty.
- ThresholdInvestment.InvestmentV1.constructor: the code never initialises the total reward discharged (it zeroes the total resources discharged twice instead), so that total is taken as a parameter.
- ContinuousInvestment.InvestmentV2.constructor: the code never initialises the discharged totals, so they are taken as parameters. The capacity recovery rate is a float and is left out, and so is the inverse of the resource function; no operation of the class uses either.
- Search.BoundedlyOptimiseMaxInvestment: where the sliding-window loop of `is_resource_level_unreachable` would never end, the search stops with `WindowDiverges`. `max` of an empty list of choices or paths, which raises in the code, is reported as `EmptyChoiceList` or `NoViablePath`.
- Search.BoundedlyOptimiseMaxInvestment: the result is the best of the final paths, and every final path is characterised as reachable by the search (`Explored`); optimality of the result among all paths of the lookahead, pruning included, is not proved.
- Reachability.IsResourceLevelUnreachable: an "unreachable" verdict is not always right, contrary to the comment at `models/deterministic/minimal/algorithms.py:114-115` (`Reachability.UnreachableVerdictCanBeWrong`); the model states the verdict the code computes and does not promise that it is sound.
- Ordering.SortBy: it is an insertion sort, proved a permutation (`SortBy`) and sorted (`SortByIsSorted`); its stability is not stated.
- InvestmentUtils.GainBoundOf: it requires a non-negative budget, where the code would take an empty `min`/`max` of a negative `range`.
- Timesteps and lookahead steps are natural numbers. A lookahead of 0 runs the first step only, as the code does (`SearchSpec.Steps`); a negative lookahead, which the code treats the same way, is not modelled.
