/**
 * The search as the code runs it: loops that fork paths step by step, each proved to
 * compute the corresponding function of SearchSpec.
 */
module Search {
  import opened Wrappers
  import opened PayoutTypes
  import opened Ordering
  import opened MinimalInvestment
  import opened InvestmentUtils
  import opened Pruning
  import opened Paths
  import opened Reachability
  import opened SearchSpec

  /** First step: the paths that the choices of investment `k` open, in choice order. */
  method ForkInitialChoices(investments: seq<Investment>, resources: int, k: nat, choices: seq<Payout>)
    returns (paths: seq<ResourcePath>)
    requires k < |investments|
    ensures |paths| == |choices|
    ensures forall j :: 0 <= j < |choices| ==> paths[j] == InitialPath(investments, resources, investments[k], choices[j])
    ensures paths == InitialForks(investments, resources, investments[k], choices)
  {
    paths := [];
    for j := 0 to |choices|
      invariant |paths| == j
      invariant forall i :: 0 <= i < j ==> paths[i] == InitialPath(investments, resources, investments[k], choices[i])
    {
      var choice := choices[j];
      var investmentCopy := investments[k].ApplyPayout(choice);
      var resourcesToSpend := resources + choice.resourceProfit;
      var rewardToDate := choice.reward;
      // only the chosen copy recovers on the first step
      var recovering := new Investment[1](_ => investmentCopy);
      UpdateInvestments(recovering);
      paths := paths + [ResourcePath(
        choice.resourcesSpent,
        resourcesToSpend,
        rewardToDate,
        [investmentCopy.id],
        [recovering[0]] + WithoutId(investments, investmentCopy.id),
        [resourcesToSpend],
        [rewardToDate])];
    }
  }

  /** First step, one investment: its choices, then the shared accumulator. */
  method ScreenInitial(investments: seq<Investment>, resources: int, isLastTimestep: bool, k: nat, best: Accumulator)
    returns (step: Step)
    requires k < |investments|
    ensures step == InitialStep(investments, resources, isLastTimestep, k, best)
  {
    var investment := investments[k];
    var choices := NondominatedChoices(investment, resources);
    if choices == [] {
      return Stop(EmptyChoiceList);
    }
    var screened := UpdateBestResultSoFar(MaxChoice(choices), investment, best, isLastTimestep);
    if screened.None? {
      return Skip;
    }
    var forked := ForkInitialChoices(investments, resources, k, choices);
    return Fork(forked, screened.value);
  }

  /** The paths gathered before investment `k`, carried through its step of the first sweep. */
  method AdvanceInitial(investments: seq<Investment>, resources: int, isLastTimestep: bool, k: nat, best: Accumulator,
                        paths: seq<ResourcePath>)
    returns (failure: Option<SearchError>, paths': seq<ResourcePath>, best': Accumulator)
    requires k < |investments|
    ensures failure.Some? ==>
      PrependPaths(paths, InitialSweep(investments, resources, isLastTimestep, k, best)) == Failure(failure.value)
    ensures failure.None? ==>
      PrependPaths(paths, InitialSweep(investments, resources, isLastTimestep, k, best))
      == PrependPaths(paths', InitialSweep(investments, resources, isLastTimestep, k + 1, best'))
  {
    var step := ScreenInitial(investments, resources, isLastTimestep, k, best);
    InitialSweepAdvance(investments, resources, isLastTimestep, k, best, paths, step);
    match step {
      case Stop(e) =>
        return Some(e), paths, best;
      case Skip =>
        return None, paths, best;
      case Fork(forked, updated) =>
        return None, paths + forked, updated;
    }
  }

  /**
   * First step: every investment is screened by one accumulator shared across all of
   * them, and each one that survives opens a path per choice.
   */
  method ExpandInitial(investments: seq<Investment>, resources: int, lookaheadSteps: nat)
    returns (r: Result<seq<ResourcePath>, SearchError>)
    ensures r == InitialPaths(investments, resources, lookaheadSteps)
  {
    var paths: seq<ResourcePath> := [];
    var best := Accumulator(None, None);
    var isLast := lookaheadSteps == 1;
    ghost var goal := InitialPaths(investments, resources, lookaheadSteps);
    assert goal == InitialSweep(investments, resources, isLast, 0, best);
    PrependNothing(goal);
    for k := 0 to |investments|
      invariant goal == PrependPaths(paths, InitialSweep(investments, resources, isLast, k, best))
    {
      var failure;
      failure, paths, best := AdvanceInitial(investments, resources, isLast, k, best, paths);
      if failure.Some? {
        return Failure(failure.value);
      }
    }
    assert InitialSweep(investments, resources, isLast, |investments|, best) == Success([]);
    assert paths + [] == paths;
    return Success(paths);
  }

  /** Later step: the children that the choices of `investment` fork from `parent`, in choice order. */
  method ForkChildren(parent: ResourcePath, investment: Investment, choices: seq<Payout>)
    returns (children: seq<ResourcePath>)
    ensures |children| == |choices|
    ensures forall j :: 0 <= j < |choices| ==> children[j] == ChildPath(parent, investment, choices[j])
    ensures children == ChildForks(parent, investment, choices)
  {
    children := [];
    for j := 0 to |choices|
      invariant |children| == j
      invariant forall i :: 0 <= i < j ==> children[i] == ChildPath(parent, investment, choices[i])
    {
      var choice := choices[j];
      var investmentCopy := investment.ApplyPayout(choice);
      var world := parent.worldCopy;
      var worldCopyCopy := new Investment[|world|](i requires 0 <= i < |world| =>
        if world[i].id == investment.id then investmentCopy else world[i]);
      assert worldCopyCopy[..] == ReplaceById(world, investment.id, investmentCopy);
      // every investment of the child's world recovers
      UpdateInvestments(worldCopyCopy);
      var resourcesToSpend := parent.resourcesToSpend + choice.resourceProfit;
      var rewardToDate := parent.rewardToDate + choice.reward;
      children := children + [ResourcePath(
        parent.resourcesSpent + choice.resourcesSpent,
        resourcesToSpend,
        rewardToDate,
        parent.investmentsChosen + [investmentCopy.id],
        worldCopyCopy[..],
        parent.resourceLevelAtEachStep + [resourcesToSpend],
        parent.rewardLevelAtEachStep + [rewardToDate])];
    }
  }

  /**
   * Later step, one investment of a parent's world: the reachability test, then the two
   * lower bounds, then the choices and the accumulator.
   */
  method ScreenChild(s: Screen, investment: Investment, best: Accumulator) returns (step: Step)
    ensures step == ChildStep(s, investment, best)
  {
    var verdict := IsInvestmentDischargeUnreachable(s.parent, investment, s.horizon);
    if verdict.Diverges? {
      return Stop(WindowDiverges);
    }
    if verdict.unreachable {
      return Skip;
    }
    var (resourceMaxRewardTake, resourceMaxResourceTake) := s.byResource;
    if investment.rewardDischargeAmount < resourceMaxRewardTake &&
       investment.resourceDischargeAmount <= resourceMaxResourceTake {
      // fails the reward lower bound
      return Skip;
    }
    var (rewardMaxResourceTake, rewardMaxRewardTake) := s.byReward;
    if investment.resourceDischargeAmount < rewardMaxResourceTake &&
       investment.rewardDischargeAmount <= rewardMaxRewardTake {
      // fails the resource lower bound
      return Skip;
    }
    step := ChooseChildren(s, investment, best);
  }

  /** Later step, one investment that passed the screen: its choices, then the accumulator of its parent. */
  method ChooseChildren(s: Screen, investment: Investment, best: Accumulator) returns (step: Step)
    ensures step == ChildChoiceStep(s, investment, best)
  {
    var choices := NondominatedChoices(investment, s.resources);
    if choices == [] {
      return Stop(EmptyChoiceList);
    }
    var screened := UpdateBestResultSoFar(MaxChoice(choices), investment, best, s.isLastTimestep);
    if screened.None? {
      return Skip;
    }
    var forked := ForkChildren(s.parent, investment, choices);
    return Fork(forked, screened.value);
  }

  /**
   * Later step `t` for one path: a dead path (zero balance) has no children; otherwise its
   * investments are screened in ascending (reward amount, resource amount) order with a
   * fresh accumulator.
   */
  method ExpandPath(parent: ResourcePath, resources: int, t: nat, lookaheadSteps: nat)
    returns (r: Result<seq<ResourcePath>, SearchError>)
    requires 1 <= t < lookaheadSteps
    requires |parent.worldCopy| > 0
    ensures r == Children(parent, resources, t, lookaheadSteps)
  {
    if parent.resourcesToSpend == 0 {
      // the agent is dead
      return Success([]);
    }
    var timestepsRemaining := lookaheadSteps - t;
    var best := Accumulator(None, None);
    var byReward := ComputeMinResourceBoundByRewardMaxing(parent.worldCopy, parent.resourcesToSpend);
    var byResource := ComputeMinRewardBoundByResourceMaxing(parent.worldCopy, parent.resourcesToSpend);
    var s := Screen(parent, resources, timestepsRemaining - 1, t == lookaheadSteps - 1, byReward, byResource);
    assert s == ScreenOf(parent, resources, t, lookaheadSteps);
    var ordered := ByAmounts(parent.worldCopy);
    var children: seq<ResourcePath> := [];
    ghost var goal := ChildSweep(s, ordered, 0, best);
    assert goal == Children(parent, resources, t, lookaheadSteps);
    PrependNothing(goal);
    for k := 0 to |ordered|
      invariant goal == PrependPaths(children, ChildSweep(s, ordered, k, best))
    {
      var step := ScreenChild(s, ordered[k], best);
      match step {
        case Stop(e) =>
          return Failure(e);
        case Skip =>
        case Fork(forked, updated) =>
          PrependPathsAssoc(children, forked, ChildSweep(s, ordered, k + 1, updated));
          best := updated;
          children := children + forked;
      }
    }
    assert children + [] == children;
    return Success(children);
  }

  /** One later step over every path held, in order; the first error ends the search. */
  method ExpandAll(paths: seq<ResourcePath>, resources: int, t: nat, lookaheadSteps: nat)
    returns (r: Result<seq<ResourcePath>, SearchError>)
    requires 1 <= t < lookaheadSteps && AllInhabited(paths)
    ensures r == NextPaths(paths, resources, t, lookaheadSteps)
  {
    var newPaths: seq<ResourcePath> := [];
    PrependNothing(NextPaths(paths, resources, t, lookaheadSteps));
    assert paths[0..] == paths;
    for i := 0 to |paths|
      invariant AllInhabited(paths[i..])
      invariant NextPaths(paths, resources, t, lookaheadSteps) ==
                PrependPaths(newPaths, NextPaths(paths[i..], resources, t, lookaheadSteps))
    {
      assert paths[i..][0] == paths[i] && paths[i..][1..] == paths[i + 1..];
      var expanded := ExpandPath(paths[i], resources, t, lookaheadSteps);
      if expanded.Failure? {
        return Failure(expanded.error);
      }
      PrependPathsAssoc(newPaths, expanded.value, NextPaths(paths[i + 1..], resources, t, lookaheadSteps));
      newPaths := newPaths + expanded.value;
    }
    assert newPaths + [] == newPaths;
    return Success(newPaths);
  }

  /** Steps 1 .. lookaheadSteps - 1, each over every path held; the first error ends the search. */
  method LookAhead(initial: seq<ResourcePath>, resources: int, lookaheadSteps: nat)
    returns (r: Result<seq<ResourcePath>, SearchError>)
    requires AllInhabited(initial)
    ensures r == LookAheadFrom(initial, resources, 1, lookaheadSteps)
  {
    var paths := initial;
    var t := 1;
    while t < lookaheadSteps
      invariant 1 <= t && AllInhabited(paths)
      invariant LookAheadFrom(initial, resources, 1, lookaheadSteps) == LookAheadFrom(paths, resources, t, lookaheadSteps)
      decreases lookaheadSteps - t
    {
      var expanded := ExpandAll(paths, resources, t, lookaheadSteps);
      if expanded.Failure? {
        return Failure(expanded.error);
      }
      paths := expanded.value;
      t := t + 1;
    }
    return Success(paths);
  }

  /**
   * The search: the first step, the later steps, and the best of the final paths. Its
   * outcome is SearchResult; a path it finds has the greatest (reward to date, balance)
   * among the final paths, was explored step by step from the initial budget, has a
   * ledger entry per step and keeps the original investments in its world.
   */
  method BoundedlyOptimiseMaxInvestment(investments: seq<Investment>, resources: int, lookaheadSteps: nat)
    returns (outcome: SearchOutcome)
    ensures outcome == SearchResult(investments, resources, lookaheadSteps)
    ensures outcome.Found? ==> Explored(investments, resources, outcome.path, Steps(lookaheadSteps))
    ensures outcome.Found? ==> LedgerAfter(outcome.path, Steps(lookaheadSteps))
    ensures outcome.Found? && DistinctIds(investments) ==> WorldMatches(investments, outcome.path)
  {
    var initial := ExpandInitial(investments, resources, lookaheadSteps);
    if initial.Failure? {
      return Failed(initial.error);
    }
    var paths := LookAhead(initial.value, resources, lookaheadSteps);
    if paths.Failure? {
      return Failed(paths.error);
    }
    outcome := BestPath(paths.value);
    SearchResultIsBestExplored(investments, resources, lookaheadSteps);
  }
}
