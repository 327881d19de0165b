/**
 * The bounded-lookahead branch-and-bound search, stated as functions. The first step
 * forks one path per non-dominated choice of every investment that survives the
 * accumulator; each later step prunes investments by reachability, by the two domination
 * bounds and by the accumulator, and forks one child per remaining choice. The result is
 * the path with the greatest reward, then the greatest balance.
 */
module SearchSpec {
  import opened Wrappers
  import opened PayoutTypes
  import opened Ordering
  import opened MinimalInvestment
  import opened InvestmentUtils
  import opened Pruning
  import opened Paths
  import opened Reachability

  /**
   * Where the code raises: `max` of an empty choice list, the reachability loop that never
   * ends, and `max` of an empty set of paths.
   */
  datatype SearchError = EmptyChoiceList | WindowDiverges | NoViablePath

  datatype SearchOutcome = Found(path: ResourcePath) | Failed(error: SearchError)

  /** A path the first step opens: a choice of some investment, for the initial budget. */
  ghost predicate IsInitialPath(investments: seq<Investment>, resources: int, p: ResourcePath) {
    exists k, c :: 0 <= k < |investments| && c in NondominatedChoices(investments[k], resources) &&
                   p == InitialPath(investments, resources, investments[k], c)
  }

  /**
   * A child of `parent`: a choice of one of the parent's investments. The choices are
   * generated for the initial budget `resources`, not for the parent's balance.
   */
  ghost predicate IsChildOf(parent: ResourcePath, p: ResourcePath, resources: int) {
    exists inv, c :: inv in parent.worldCopy && c in NondominatedChoices(inv, resources) &&
                     p == ChildPath(parent, inv, c)
  }

  /** A path the search can hold after `steps` steps: each ancestor was alive when it was forked. */
  ghost predicate Explored(investments: seq<Investment>, resources: int, p: ResourcePath, steps: nat)
    decreases steps
  {
    if steps <= 1 then steps == 1 && IsInitialPath(investments, resources, p)
    else exists parent :: Explored(investments, resources, parent, steps - 1) &&
                          parent.resourcesToSpend != 0 && IsChildOf(parent, p, resources)
  }

  /** Every path of `paths` can be held after `steps` steps. */
  ghost predicate AllExplored(investments: seq<Investment>, resources: int, paths: seq<ResourcePath>, steps: nat) {
    forall p :: p in paths ==> Explored(investments, resources, p, steps)
  }

  lemma ExploredStep(investments: seq<Investment>, resources: int, parent: ResourcePath, p: ResourcePath, steps: nat)
    requires 1 <= steps && Explored(investments, resources, parent, steps)
    requires parent.resourcesToSpend != 0 && IsChildOf(parent, p, resources)
    ensures Explored(investments, resources, p, steps + 1)
  {
  }

  /** Paths are compared by reward to date, then by the balance left. */
  function PathKey(p: ResourcePath): (int, int) {
    (p.rewardToDate, p.resourcesToSpend)
  }

  /**
   * The path `max` selects: the first with the greatest key; none when there are no paths.
   * Every earlier path has a smaller key, so ties go to the earliest path.
   */
  function BestPath(paths: seq<ResourcePath>): (outcome: SearchOutcome)
    ensures paths == [] <==> outcome == Failed(NoViablePath)
    ensures outcome.Found? ==> outcome.path in paths
    ensures outcome.Found? ==> forall q :: q in paths ==> LexLeq(PathKey(q), PathKey(outcome.path))
    ensures outcome.Found? ==>
      exists k :: 0 <= k < |paths| && paths[k] == outcome.path &&
                  forall j :: 0 <= j < k ==> !LexLeq(PathKey(outcome.path), PathKey(paths[j]))
  {
    if paths == [] then Failed(NoViablePath)
    else
      FirstMaxIndexIsFirstMax(paths, PathKey);
      Found(paths[FirstMaxIndex(paths, PathKey)])
  }

  /** The number of steps every final path has taken. */
  function Steps(lookaheadSteps: nat): nat {
    if lookaheadSteps == 0 then 1 else lookaheadSteps
  }

  /** A path the first step opens is explored after one step. */
  lemma InitialExplored(investments: seq<Investment>, resources: int, p: ResourcePath)
    requires IsInitialPath(investments, resources, p)
    ensures Explored(investments, resources, p, 1) && |p.worldCopy| > 0
  {
    var k, c :| 0 <= k < |investments| && c in NondominatedChoices(investments[k], resources) &&
                p == InitialPath(investments, resources, investments[k], c);
  }


  // ---------------------------------------------------------------------------
  // The search as functions: what each loop of the search computes

  /** `prefix` followed by the paths of `rest`; a failure in `rest` discards the prefix, as a raise does. */
  function PrependPaths(prefix: seq<ResourcePath>, rest: Result<seq<ResourcePath>, SearchError>)
    : Result<seq<ResourcePath>, SearchError>
  {
    match rest
    case Success(paths) => Success(prefix + paths)
    case Failure(e) => Failure(e)
  }

  lemma PrependPathsAssoc(a: seq<ResourcePath>, b: seq<ResourcePath>, rest: Result<seq<ResourcePath>, SearchError>)
    ensures PrependPaths(a, PrependPaths(b, rest)) == PrependPaths(a + b, rest)
  {
    if rest.Success? {
      assert a + (b + rest.value) == (a + b) + rest.value;
    }
  }

  lemma PrependNothing(rest: Result<seq<ResourcePath>, SearchError>)
    ensures PrependPaths([], rest) == rest
  {
    if rest.Success? {
      assert [] + rest.value == rest.value;
    }
  }

  lemma PrependKeepsFailure(prefix: seq<ResourcePath>, rest: Result<seq<ResourcePath>, SearchError>)
    ensures PrependPaths(prefix, rest).Failure? == rest.Failure?
    ensures rest.Failure? ==> PrependPaths(prefix, rest) == rest
  {
  }

  /** The first-step paths that the choices of `investment` open, in choice order. */
  function InitialForks(investments: seq<Investment>, resources: int, investment: Investment, choices: seq<Payout>)
    : seq<ResourcePath>
  {
    seq(|choices|, j requires 0 <= j < |choices| => InitialPath(investments, resources, investment, choices[j]))
  }

  /**
   * What screening one investment does: `Stop` ends the search with an error, `Skip`
   * passes to the next investment with the accumulator unchanged, and `Fork` adds paths
   * and replaces the accumulator.
   */
  datatype Step = Stop(error: SearchError) | Skip | Fork(forks: seq<ResourcePath>, updated: Accumulator)

  /**
   * The first step for one investment: without a choice it raises; the accumulator
   * decides whether it opens a path per choice.
   */
  function InitialStep(investments: seq<Investment>, resources: int, isLastTimestep: bool, k: nat, best: Accumulator): Step
    requires k < |investments|
  {
    var choices := NondominatedChoices(investments[k], resources);
    if choices == [] then Stop(EmptyChoiceList)
    else
      match UpdateBestResultSoFar(MaxChoice(choices), investments[k], best, isLastTimestep)
      case None => Skip
      case Some(updated) => Fork(InitialForks(investments, resources, investments[k], choices), updated)
  }

  /**
   * The first step from investment `k` on, screened by the accumulator `best` that all
   * investments share. Every path opened has a world.
   */
  function InitialSweep(investments: seq<Investment>, resources: int, isLastTimestep: bool, k: nat, best: Accumulator)
    : (r: Result<seq<ResourcePath>, SearchError>)
    ensures r.Success? ==> AllInhabited(r.value)
    decreases |investments| - k
  {
    if k >= |investments| then Success([])
    else
      match InitialStep(investments, resources, isLastTimestep, k, best)
      case Stop(e) => Failure(e)
      case Skip => InitialSweep(investments, resources, isLastTimestep, k + 1, best)
      case Fork(forks, updated) => PrependPaths(forks, InitialSweep(investments, resources, isLastTimestep, k + 1, updated))
  }

  /** How the paths gathered before investment `k` continue through its step. */
  lemma InitialSweepAdvance(investments: seq<Investment>, resources: int, isLastTimestep: bool, k: nat, best: Accumulator,
                            paths: seq<ResourcePath>, step: Step)
    requires k < |investments| && step == InitialStep(investments, resources, isLastTimestep, k, best)
    ensures step.Stop? ==>
      PrependPaths(paths, InitialSweep(investments, resources, isLastTimestep, k, best)) == Failure(step.error)
    ensures step.Skip? ==>
      PrependPaths(paths, InitialSweep(investments, resources, isLastTimestep, k, best))
      == PrependPaths(paths, InitialSweep(investments, resources, isLastTimestep, k + 1, best))
    ensures step.Fork? ==>
      PrependPaths(paths, InitialSweep(investments, resources, isLastTimestep, k, best))
      == PrependPaths(paths + step.forks, InitialSweep(investments, resources, isLastTimestep, k + 1, step.updated))
  {
    if step.Fork? {
      PrependPathsAssoc(paths, step.forks, InitialSweep(investments, resources, isLastTimestep, k + 1, step.updated));
    }
  }

  /** The paths of the first step, screened from an empty accumulator. */
  function InitialPaths(investments: seq<Investment>, resources: int, lookaheadSteps: nat)
    : Result<seq<ResourcePath>, SearchError>
  {
    InitialSweep(investments, resources, lookaheadSteps == 1, 0, Accumulator(None, None))
  }

  /** Every path has a world of investments. */
  predicate AllInhabited(paths: seq<ResourcePath>) {
    forall p :: p in paths ==> |p.worldCopy| > 0
  }

  /**
   * What a later step fixes for one parent before screening its investments: the budget
   * the choices are generated for, the time left for the reachability test, whether this
   * is the last step, and the two lower bounds, `(resource profit, reward)` of the
   * reward-maximising investment and `(reward, resource profit)` of the resource-maximising one.
   */
  datatype Screen = Screen(parent: ResourcePath, resources: int, horizon: nat, isLastTimestep: bool,
                           byReward: (int, int), byResource: (int, int))

  /** Below the reward of the resource-maximising choice without more resources to offer. */
  predicate FailsRewardBound(investment: Investment, byResource: (int, int)) {
    investment.rewardDischargeAmount < byResource.0 && investment.resourceDischargeAmount <= byResource.1
  }

  /** Below the resources of the reward-maximising choice without more reward to offer. */
  predicate FailsResourceBound(investment: Investment, byReward: (int, int)) {
    investment.resourceDischargeAmount < byReward.0 && investment.rewardDischargeAmount <= byReward.1
  }

  /** The children that the choices of `investment` fork from `parent`, in choice order. */
  function ChildForks(parent: ResourcePath, investment: Investment, choices: seq<Payout>): (children: seq<ResourcePath>)
    ensures forall c :: c in children ==> |c.worldCopy| == |parent.worldCopy|
  {
    seq(|choices|, j requires 0 <= j < |choices| => ChildPath(parent, investment, choices[j]))
  }

  /**
   * A later step for one investment of the parent's world: a reachability test that
   * diverges ends the search; an investment that is unreachable or fails a lower bound is
   * skipped; any other goes on to its choices.
   */
  function ChildStep(s: Screen, investment: Investment, best: Accumulator): Step {
    match ReachabilitySpec(s.parent.worldCopy, s.parent.resourcesToSpend, investment.dischargeThreshold, s.horizon)
    case Diverges => Stop(WindowDiverges)
    case Decided(unreachable) =>
      if unreachable || FailsRewardBound(investment, s.byResource) || FailsResourceBound(investment, s.byReward) then Skip
      else ChildChoiceStep(s, investment, best)
  }

  /**
   * A later step for an investment that passed the screen: one without a choice raises;
   * the accumulator decides whether it forks a child per choice.
   */
  function ChildChoiceStep(s: Screen, investment: Investment, best: Accumulator): Step {
    var choices := NondominatedChoices(investment, s.resources);
    if choices == [] then Stop(EmptyChoiceList)
    else
      match UpdateBestResultSoFar(MaxChoice(choices), investment, best, s.isLastTimestep)
      case None => Skip
      case Some(updated) => Fork(ChildForks(s.parent, investment, choices), updated)
  }

  /**
   * A later step for one parent, from the `k`-th of its investments in screening order
   * on. Every child keeps the size of its parent's world.
   */
  function ChildSweep(s: Screen, ordered: seq<Investment>, k: nat, best: Accumulator)
    : (r: Result<seq<ResourcePath>, SearchError>)
    ensures r.Success? ==> forall c :: c in r.value ==> |c.worldCopy| == |s.parent.worldCopy|
    decreases |ordered| - k
  {
    if k >= |ordered| then Success([])
    else
      match ChildStep(s, ordered[k], best)
      case Stop(e) => Failure(e)
      case Skip => ChildSweep(s, ordered, k + 1, best)
      case Fork(forks, updated) => PrependPaths(forks, ChildSweep(s, ordered, k + 1, updated))
  }

  /** A world in screening order: ascending reward amount, then resource amount, stable. */
  function ByAmounts(world: seq<Investment>): seq<Investment> {
    SortBy(world, (i: Investment) => (i.rewardDischargeAmount, i.resourceDischargeAmount))
  }

  /** The screen of a parent at step `t`, with both bounds taken over its world and balance. */
  function ScreenOf(parent: ResourcePath, resources: int, t: nat, lookaheadSteps: nat): Screen
    requires t < lookaheadSteps && |parent.worldCopy| > 0
  {
    Screen(parent, resources, lookaheadSteps - t - 1, t == lookaheadSteps - 1,
           ComputeMinResourceBoundByRewardMaxing(parent.worldCopy, parent.resourcesToSpend),
           ComputeMinRewardBoundByResourceMaxing(parent.worldCopy, parent.resourcesToSpend))
  }

  /**
   * The children of one path at step `t`: none for a dead path; otherwise its world is
   * screened in order with a fresh accumulator.
   */
  function Children(parent: ResourcePath, resources: int, t: nat, lookaheadSteps: nat)
    : (r: Result<seq<ResourcePath>, SearchError>)
    requires 1 <= t < lookaheadSteps && |parent.worldCopy| > 0
    ensures r.Success? ==> forall c :: c in r.value ==> |c.worldCopy| == |parent.worldCopy|
  {
    if parent.resourcesToSpend == 0 then Success([])
    else ChildSweep(ScreenOf(parent, resources, t, lookaheadSteps), ByAmounts(parent.worldCopy), 0, Accumulator(None, None))
  }

  /** Step `t` over every path held, in order: the children of each, or the first error. */
  function NextPaths(paths: seq<ResourcePath>, resources: int, t: nat, lookaheadSteps: nat)
    : (r: Result<seq<ResourcePath>, SearchError>)
    requires 1 <= t < lookaheadSteps && AllInhabited(paths)
    ensures r.Success? ==> AllInhabited(r.value)
    decreases |paths|
  {
    if paths == [] then Success([])
    else
      match Children(paths[0], resources, t, lookaheadSteps)
      case Failure(e) => Failure(e)
      case Success(children) => PrependPaths(children, NextPaths(paths[1..], resources, t, lookaheadSteps))
  }

  /** Steps `t` .. lookaheadSteps - 1, starting from `paths`. */
  function LookAheadFrom(paths: seq<ResourcePath>, resources: int, t: nat, lookaheadSteps: nat)
    : Result<seq<ResourcePath>, SearchError>
    requires 1 <= t && AllInhabited(paths)
    decreases lookaheadSteps - t
  {
    if t >= lookaheadSteps then Success(paths)
    else
      match NextPaths(paths, resources, t, lookaheadSteps)
      case Failure(e) => Failure(e)
      case Success(next) => LookAheadFrom(next, resources, t + 1, lookaheadSteps)
  }

  /** The paths held after the last step, or the error that ended the search. */
  function FinalPaths(investments: seq<Investment>, resources: int, lookaheadSteps: nat)
    : Result<seq<ResourcePath>, SearchError>
  {
    match InitialPaths(investments, resources, lookaheadSteps)
    case Failure(e) => Failure(e)
    case Success(initial) => LookAheadFrom(initial, resources, 1, lookaheadSteps)
  }

  /** What the search returns: the best final path, or the error that ended it. */
  function SearchResult(investments: seq<Investment>, resources: int, lookaheadSteps: nat): SearchOutcome {
    match FinalPaths(investments, resources, lookaheadSteps)
    case Failure(e) => Failed(e)
    case Success(paths) => BestPath(paths)
  }

  // ---------------------------------------------------------------------------
  // What the search functions promise

  /** Screening one investment on the first step stops exactly when it has no choice, and then with `EmptyChoiceList`. */
  lemma InitialStepStops(investments: seq<Investment>, resources: int, isLastTimestep: bool, k: nat, best: Accumulator)
    requires k < |investments|
    ensures InitialStep(investments, resources, isLastTimestep, k, best).Stop? <==>
            NondominatedChoices(investments[k], resources) == []
    ensures InitialStep(investments, resources, isLastTimestep, k, best).Stop? ==>
            InitialStep(investments, resources, isLastTimestep, k, best).error == EmptyChoiceList
  {
  }

  /**
   * The first step fails exactly when some investment from `k` on has no choice, whatever
   * the accumulator, and then with `EmptyChoiceList`: choices are generated before screening.
   */
  lemma InitialSweepFails(investments: seq<Investment>, resources: int, isLastTimestep: bool, k: nat, best: Accumulator)
    ensures InitialSweep(investments, resources, isLastTimestep, k, best).Failure? <==>
            exists j :: k <= j < |investments| && NondominatedChoices(investments[j], resources) == []
    ensures InitialSweep(investments, resources, isLastTimestep, k, best).Failure? ==>
            InitialSweep(investments, resources, isLastTimestep, k, best).error == EmptyChoiceList
  {
    if InitialSweep(investments, resources, isLastTimestep, k, best).Failure? {
      var j := InitialSweepFailsAt(investments, resources, isLastTimestep, k, best);
    }
    forall j | k <= j < |investments| && NondominatedChoices(investments[j], resources) == []
      ensures InitialSweep(investments, resources, isLastTimestep, k, best).Failure?
    {
      MissingChoiceFailsSweep(investments, resources, isLastTimestep, k, best, j);
    }
  }

  /** A failed first step names an investment without a choice, and fails with `EmptyChoiceList`. */
  lemma {:induction false} InitialSweepFailsAt(investments: seq<Investment>, resources: int, isLastTimestep: bool,
                                               k: nat, best: Accumulator) returns (j: nat)
    requires InitialSweep(investments, resources, isLastTimestep, k, best).Failure?
    ensures k <= j < |investments| && NondominatedChoices(investments[j], resources) == []
    ensures InitialSweep(investments, resources, isLastTimestep, k, best).error == EmptyChoiceList
    decreases |investments| - k
  {
    var step := InitialStep(investments, resources, isLastTimestep, k, best);
    InitialStepStops(investments, resources, isLastTimestep, k, best);
    if step.Stop? {
      j := k;
    } else if step.Skip? {
      j := InitialSweepFailsAt(investments, resources, isLastTimestep, k + 1, best);
    } else {
      PrependKeepsFailure(step.forks, InitialSweep(investments, resources, isLastTimestep, k + 1, step.updated));
      j := InitialSweepFailsAt(investments, resources, isLastTimestep, k + 1, step.updated);
    }
  }

  /** An investment without a choice makes the first step fail, whatever the accumulator. */
  lemma {:induction false} MissingChoiceFailsSweep(investments: seq<Investment>, resources: int, isLastTimestep: bool,
                                                   k: nat, best: Accumulator, j: nat)
    requires k <= j < |investments| && NondominatedChoices(investments[j], resources) == []
    ensures InitialSweep(investments, resources, isLastTimestep, k, best).Failure?
    decreases |investments| - k
  {
    var step := InitialStep(investments, resources, isLastTimestep, k, best);
    InitialStepStops(investments, resources, isLastTimestep, k, best);
    if step.Stop? {
      assert InitialSweep(investments, resources, isLastTimestep, k, best) == Failure(step.error);
    } else if step.Skip? {
      MissingChoiceFailsSweep(investments, resources, isLastTimestep, k + 1, best, j);
    } else if step.Fork? {
      MissingChoiceFailsSweep(investments, resources, isLastTimestep, k + 1, step.updated, j);
      PrependKeepsFailure(step.forks, InitialSweep(investments, resources, isLastTimestep, k + 1, step.updated));
    }
  }

  /** The first investment is never rejected by the empty accumulator, so a successful first step opens some path. */
  lemma InitialSweepOpens(investments: seq<Investment>, resources: int, isLastTimestep: bool)
    requires |investments| > 0
    requires InitialSweep(investments, resources, isLastTimestep, 0, Accumulator(None, None)).Success?
    ensures InitialSweep(investments, resources, isLastTimestep, 0, Accumulator(None, None)).value != []
  {
    var choices := NondominatedChoices(investments[0], resources);
    assert |InitialForks(investments, resources, investments[0], choices)| == |choices| > 0;
  }

  /** A property of the prefix and of the paths that follow holds of all the paths. */
  lemma PrependKeeps(prop: ResourcePath -> bool, prefix: seq<ResourcePath>, rest: Result<seq<ResourcePath>, SearchError>)
    requires forall p :: p in prefix ==> prop(p)
    requires rest.Success? ==> forall p :: p in rest.value ==> prop(p)
    ensures PrependPaths(prefix, rest).Success? ==> forall p :: p in PrependPaths(prefix, rest).value ==> prop(p)
  {
    if rest.Success? {
      assert forall p :: p in prefix + rest.value ==> p in prefix || p in rest.value;
    }
  }

  /** Every path the step forks, if it forks, has the property. */
  ghost predicate ForksHave(prop: ResourcePath -> bool, step: Step) {
    step.Fork? ==> forall p :: p in step.forks ==> prop(p)
  }

  /** A property of every path that some investment's step forks holds of every path the sweep opens. */
  lemma {:induction false} InitialSweepKeeps(prop: ResourcePath -> bool, investments: seq<Investment>, resources: int,
                                             isLastTimestep: bool, k: nat, best: Accumulator)
    requires forall j: nat, b: Accumulator :: j < |investments| ==>
               ForksHave(prop, InitialStep(investments, resources, isLastTimestep, j, b))
    ensures var r := InitialSweep(investments, resources, isLastTimestep, k, best);
      r.Success? ==> forall p :: p in r.value ==> prop(p)
    decreases |investments| - k
  {
    if k < |investments| {
      var step := InitialStep(investments, resources, isLastTimestep, k, best);
      if step.Skip? {
        InitialSweepKeeps(prop, investments, resources, isLastTimestep, k + 1, best);
      } else if step.Fork? {
        InitialSweepKeeps(prop, investments, resources, isLastTimestep, k + 1, step.updated);
        PrependKeeps(prop, step.forks, InitialSweep(investments, resources, isLastTimestep, k + 1, step.updated));
      }
    }
  }

  /** Every path the first step opens is the fork of a choice of one of the investments. */
  lemma InitialSweepPaths(investments: seq<Investment>, resources: int, isLastTimestep: bool, k: nat, best: Accumulator)
    ensures var r := InitialSweep(investments, resources, isLastTimestep, k, best);
      r.Success? ==> forall p :: p in r.value ==> IsInitialPath(investments, resources, p)
  {
    var prop: ResourcePath -> bool := (p: ResourcePath) => IsInitialPath(investments, resources, p);
    forall j: nat, b: Accumulator | j < |investments|
      ensures ForksHave(prop, InitialStep(investments, resources, isLastTimestep, j, b))
    {
      if InitialStep(investments, resources, isLastTimestep, j, b).Fork? {
        InitialStepForks(investments, resources, isLastTimestep, j, b);
      }
    }
    InitialSweepKeeps(prop, investments, resources, isLastTimestep, k, best);
  }

  /** Every path the first step opens for one investment is the fork of one of its choices. */
  lemma InitialStepForks(investments: seq<Investment>, resources: int, isLastTimestep: bool, k: nat, best: Accumulator)
    requires k < |investments| && InitialStep(investments, resources, isLastTimestep, k, best).Fork?
    ensures forall p :: p in InitialStep(investments, resources, isLastTimestep, k, best).forks ==>
      IsInitialPath(investments, resources, p)
  {
    var choices := NondominatedChoices(investments[k], resources);
    var forks := InitialStep(investments, resources, isLastTimestep, k, best).forks;
    assert forks == InitialForks(investments, resources, investments[k], choices);
    forall p | p in forks ensures IsInitialPath(investments, resources, p) {
      var j :| 0 <= j < |forks| && forks[j] == p;
      assert choices[j] in choices;
    }
  }

  /**
   * An investment that survives the screen of a later step: the reachability test says it
   * can be reached, and it fails neither lower bound.
   */
  predicate Admitted(s: Screen, investment: Investment) {
    ReachabilitySpec(s.parent.worldCopy, s.parent.resourcesToSpend, investment.dischargeThreshold, s.horizon) == Decided(false) &&
    !FailsRewardBound(investment, s.byResource) && !FailsResourceBound(investment, s.byReward)
  }

  /** `c` is the fork of the screened parent by a choice of `investment`. */
  ghost predicate ForkedBy(s: Screen, investment: Investment, c: ResourcePath) {
    exists choice :: choice in NondominatedChoices(investment, s.resources) && c == ChildPath(s.parent, investment, choice)
  }

  /** Screening forks only an admitted investment, each fork by one of its choices. */
  lemma ChildStepForks(s: Screen, investment: Investment, best: Accumulator)
    requires ChildStep(s, investment, best).Fork?
    ensures Admitted(s, investment)
    ensures forall c :: c in ChildStep(s, investment, best).forks ==> ForkedBy(s, investment, c)
  {
    var choices := NondominatedChoices(investment, s.resources);
    var forks := ChildStep(s, investment, best).forks;
    assert forks == ChildForks(s.parent, investment, choices);
    forall c | c in forks ensures ForkedBy(s, investment, c) {
      var j :| 0 <= j < |forks| && forks[j] == c;
      assert choices[j] in choices;
    }
  }

  /** `c` is the fork of the screened parent by a choice of an admitted investment of `ordered`. */
  ghost predicate ForkedByAdmitted(s: Screen, ordered: seq<Investment>, c: ResourcePath) {
    exists inv :: inv in ordered && Admitted(s, inv) && ForkedBy(s, inv, c)
  }

  /**
   * Every child a sweep forks comes from a choice of an admitted investment: an investment
   * found unreachable, or failing a lower bound, forks nothing.
   */
  lemma {:induction false} ChildSweepChildren(s: Screen, ordered: seq<Investment>, k: nat, best: Accumulator)
    ensures var r := ChildSweep(s, ordered, k, best);
      r.Success? ==> forall c :: c in r.value ==> ForkedByAdmitted(s, ordered, c)
    decreases |ordered| - k
  {
    if k < |ordered| {
      var investment := ordered[k];
      var step := ChildStep(s, investment, best);
      if step.Skip? {
        ChildSweepChildren(s, ordered, k + 1, best);
      } else if step.Fork? {
        ChildSweepChildren(s, ordered, k + 1, step.updated);
        ChildStepForks(s, investment, best);
        var rest := ChildSweep(s, ordered, k + 1, step.updated);
        if rest.Success? {
          forall c | c in step.forks + rest.value ensures ForkedByAdmitted(s, ordered, c) {
            if c in step.forks {
              assert investment in ordered && Admitted(s, investment) && ForkedBy(s, investment, c);
            }
          }
        }
      }
    }
  }

  /**
   * A later step fails only for a reason in the parent's world: an investment whose
   * reachability test diverges (`WindowDiverges`), or an admitted investment with no
   * choice for the budget (`EmptyChoiceList`).
   */
  lemma {:induction false} ChildSweepFails(s: Screen, ordered: seq<Investment>, k: nat, best: Accumulator)
    ensures var r := ChildSweep(s, ordered, k, best);
      r.Failure? ==>
        (r.error == WindowDiverges &&
         exists inv :: inv in ordered &&
           ReachabilitySpec(s.parent.worldCopy, s.parent.resourcesToSpend, inv.dischargeThreshold, s.horizon) == Diverges) ||
        (r.error == EmptyChoiceList &&
         exists inv :: inv in ordered && Admitted(s, inv) && NondominatedChoices(inv, s.resources) == [])
    decreases |ordered| - k
  {
    if k < |ordered| {
      var step := ChildStep(s, ordered[k], best);
      if step.Skip? {
        ChildSweepFails(s, ordered, k + 1, best);
      } else if step.Fork? {
        ChildSweepFails(s, ordered, k + 1, step.updated);
        PrependKeepsFailure(step.forks, ChildSweep(s, ordered, k + 1, step.updated));
      } else {
        assert ordered[k] in ordered;
      }
    }
  }

  /**
   * A path's children are forked only while it is alive, each by a choice of one of its
   * investments that passed the reachability test and both lower bounds.
   */
  lemma ChildrenAreChildren(parent: ResourcePath, resources: int, t: nat, lookaheadSteps: nat)
    requires 1 <= t < lookaheadSteps && |parent.worldCopy| > 0
    ensures var r := Children(parent, resources, t, lookaheadSteps);
      r.Success? ==> forall c :: c in r.value ==>
        parent.resourcesToSpend != 0 && IsChildOf(parent, c, resources) &&
        exists inv :: inv in parent.worldCopy && Admitted(ScreenOf(parent, resources, t, lookaheadSteps), inv) &&
                      ForkedBy(ScreenOf(parent, resources, t, lookaheadSteps), inv, c)
  {
    if parent.resourcesToSpend != 0 {
      var s := ScreenOf(parent, resources, t, lookaheadSteps);
      var ordered := ByAmounts(parent.worldCopy);
      ChildSweepChildren(s, ordered, 0, Accumulator(None, None));
      var r := Children(parent, resources, t, lookaheadSteps);
      if r.Success? {
        forall c | c in r.value
          ensures IsChildOf(parent, c, resources)
          ensures exists inv :: inv in parent.worldCopy && Admitted(s, inv) && ForkedBy(s, inv, c)
        {
          assert ForkedByAdmitted(s, ordered, c);
          var inv :| inv in ordered && Admitted(s, inv) && ForkedBy(s, inv, c);
          assert inv in multiset(ordered);
          var choice :| choice in NondominatedChoices(inv, resources) && c == ChildPath(parent, inv, choice);
        }
      }
    }
  }

  /** One step turns paths explored for `t` steps into paths explored for `t + 1`. */
  lemma {:induction false} NextPathsExplored(investments: seq<Investment>, resources: int, paths: seq<ResourcePath>,
                                             t: nat, lookaheadSteps: nat)
    requires 1 <= t < lookaheadSteps && AllInhabited(paths)
    requires AllExplored(investments, resources, paths, t)
    ensures NextPaths(paths, resources, t, lookaheadSteps).Success? ==>
      AllExplored(investments, resources, NextPaths(paths, resources, t, lookaheadSteps).value, t + 1)
    decreases |paths|
  {
    if paths != [] {
      var parent := paths[0];
      ChildrenAreChildren(parent, resources, t, lookaheadSteps);
      var children := Children(parent, resources, t, lookaheadSteps);
      var rest := NextPaths(paths[1..], resources, t, lookaheadSteps);
      NextPathsExplored(investments, resources, paths[1..], t, lookaheadSteps);
      if children.Success? && rest.Success? {
        forall q | q in children.value + rest.value ensures Explored(investments, resources, q, t + 1) {
          if q in children.value {
            ExploredStep(investments, resources, parent, q, t);
          }
        }
      }
    }
  }

  /**
   * Induction over the remaining steps: a property of the held paths that every step
   * carries from `s` to `s + 1` holds of the paths left after the last step.
   */
  lemma {:induction false} LookAheadFromKeeps(inv: (seq<ResourcePath>, nat) -> bool, paths: seq<ResourcePath>,
                                              resources: int, t: nat, lookaheadSteps: nat)
    requires 1 <= t <= Steps(lookaheadSteps) && AllInhabited(paths) && inv(paths, t)
    requires forall ps: seq<ResourcePath>, s: nat ::
               (1 <= s < lookaheadSteps && AllInhabited(ps) && inv(ps, s) && NextPaths(ps, resources, s, lookaheadSteps).Success?) ==>
               inv(NextPaths(ps, resources, s, lookaheadSteps).value, s + 1)
    requires LookAheadFrom(paths, resources, t, lookaheadSteps).Success?
    ensures inv(LookAheadFrom(paths, resources, t, lookaheadSteps).value, Steps(lookaheadSteps))
    decreases lookaheadSteps - t
  {
    if t < lookaheadSteps {
      LookAheadFromKeeps(inv, NextPaths(paths, resources, t, lookaheadSteps).value, resources, t + 1, lookaheadSteps);
    }
  }

  /** Every step, from any step count, carries explored paths to paths explored one step further. */
  lemma EveryStepExplores(investments: seq<Investment>, resources: int, lookaheadSteps: nat)
    ensures forall ps: seq<ResourcePath>, s: nat ::
              (1 <= s < lookaheadSteps && AllInhabited(ps) && AllExplored(investments, resources, ps, s) &&
               NextPaths(ps, resources, s, lookaheadSteps).Success?) ==>
              AllExplored(investments, resources, NextPaths(ps, resources, s, lookaheadSteps).value, s + 1)
  {
    forall ps: seq<ResourcePath>, s: nat |
      1 <= s < lookaheadSteps && AllInhabited(ps) && AllExplored(investments, resources, ps, s) &&
      NextPaths(ps, resources, s, lookaheadSteps).Success?
      ensures AllExplored(investments, resources, NextPaths(ps, resources, s, lookaheadSteps).value, s + 1)
    {
      NextPathsExplored(investments, resources, ps, s, lookaheadSteps);
    }
  }

  /** Paths explored for `t` steps end, after the remaining steps, explored for the full lookahead. */
  lemma LookAheadFromExplored(investments: seq<Investment>, resources: int, paths: seq<ResourcePath>,
                              t: nat, lookaheadSteps: nat)
    requires 1 <= t <= Steps(lookaheadSteps) && AllInhabited(paths)
    requires AllExplored(investments, resources, paths, t)
    ensures LookAheadFrom(paths, resources, t, lookaheadSteps).Success? ==>
      AllExplored(investments, resources, LookAheadFrom(paths, resources, t, lookaheadSteps).value, Steps(lookaheadSteps))
  {
    if LookAheadFrom(paths, resources, t, lookaheadSteps).Success? {
      EveryStepExplores(investments, resources, lookaheadSteps);
      LookAheadFromKeeps((ps: seq<ResourcePath>, s: nat) => AllExplored(investments, resources, ps, s),
                         paths, resources, t, lookaheadSteps);
    }
  }

  /** Every final path has been explored step by step from the initial budget. */
  lemma FinalPathsExplored(investments: seq<Investment>, resources: int, lookaheadSteps: nat)
    ensures var r := FinalPaths(investments, resources, lookaheadSteps);
      r.Success? ==> forall q :: q in r.value ==> Explored(investments, resources, q, Steps(lookaheadSteps))
  {
    var initial := InitialPaths(investments, resources, lookaheadSteps);
    InitialSweepPaths(investments, resources, lookaheadSteps == 1, 0, Accumulator(None, None));
    if initial.Success? {
      forall p | p in initial.value ensures Explored(investments, resources, p, 1) {
        InitialExplored(investments, resources, p);
      }
      LookAheadFromExplored(investments, resources, initial.value, 1, lookaheadSteps);
    }
  }

  /**
   * The path the search finds is a final path with the greatest (reward, balance), the
   * first such; it was explored for the full lookahead, its ledger has an entry per step,
   * and its world holds the original investments.
   */
  lemma SearchResultIsBestExplored(investments: seq<Investment>, resources: int, lookaheadSteps: nat)
    ensures var outcome := SearchResult(investments, resources, lookaheadSteps);
      outcome.Found? ==>
        FinalPaths(investments, resources, lookaheadSteps).Success? &&
        outcome.path in FinalPaths(investments, resources, lookaheadSteps).value &&
        (forall q :: q in FinalPaths(investments, resources, lookaheadSteps).value ==> LexLeq(PathKey(q), PathKey(outcome.path))) &&
        Explored(investments, resources, outcome.path, Steps(lookaheadSteps)) &&
        LedgerAfter(outcome.path, Steps(lookaheadSteps)) &&
        (DistinctIds(investments) ==> WorldMatches(investments, outcome.path))
  {
    var outcome := SearchResult(investments, resources, lookaheadSteps);
    FinalPathsExplored(investments, resources, lookaheadSteps);
    if outcome.Found? {
      ExploredLedger(investments, resources, outcome.path, Steps(lookaheadSteps));
      if DistinctIds(investments) {
        ExploredWorld(investments, resources, outcome.path, Steps(lookaheadSteps));
      }
    }
  }

  /**
   * The search ends with `EmptyChoiceList` whenever some investment has no choice for the
   * budget; with a lookahead of one step this is its only failure, and it finds a path
   * otherwise whenever there is an investment.
   */
  lemma SearchFailsOnMissingChoice(investments: seq<Investment>, resources: int, lookaheadSteps: nat)
    ensures (exists k :: 0 <= k < |investments| && NondominatedChoices(investments[k], resources) == []) ==>
            SearchResult(investments, resources, lookaheadSteps) == Failed(EmptyChoiceList)
    ensures lookaheadSteps <= 1 && |investments| > 0 &&
            (forall k :: 0 <= k < |investments| ==> NondominatedChoices(investments[k], resources) != []) ==>
            SearchResult(investments, resources, lookaheadSteps).Found?
  {
    InitialSweepFails(investments, resources, lookaheadSteps == 1, 0, Accumulator(None, None));
    if lookaheadSteps <= 1 && |investments| > 0 &&
       InitialPaths(investments, resources, lookaheadSteps).Success? {
      InitialSweepOpens(investments, resources, lookaheadSteps == 1);
    }
  }

  /** The reachability test only runs from the second step on, so only a lookahead of two or more can diverge. */
  lemma DivergenceNeedsTwoSteps(investments: seq<Investment>, resources: int, lookaheadSteps: nat)
    requires SearchResult(investments, resources, lookaheadSteps) == Failed(WindowDiverges)
    ensures lookaheadSteps >= 2
  {
    InitialSweepFails(investments, resources, lookaheadSteps == 1, 0, Accumulator(None, None));
  }

  /** An explored path of more than one step has an explored, live parent it was forked from. */
  lemma ExploredParent(investments: seq<Investment>, resources: int, p: ResourcePath, steps: nat)
    returns (parent: ResourcePath)
    requires 1 < steps && Explored(investments, resources, p, steps)
    ensures Explored(investments, resources, parent, steps - 1)
    ensures parent.resourcesToSpend != 0 && IsChildOf(parent, p, resources)
  {
    parent :| Explored(investments, resources, parent, steps - 1) &&
              parent.resourcesToSpend != 0 && IsChildOf(parent, p, resources);
  }

  /** The investment and choice a first-step path was opened by. */
  lemma InitialChoice(investments: seq<Investment>, resources: int, p: ResourcePath) returns (k: nat, c: Payout)
    requires Explored(investments, resources, p, 1)
    ensures k < |investments| && c in NondominatedChoices(investments[k], resources)
    ensures p == InitialPath(investments, resources, investments[k], c)
  {
    k, c :| 0 <= k < |investments| && c in NondominatedChoices(investments[k], resources) &&
            p == InitialPath(investments, resources, investments[k], c);
  }

  /**
   * The ledger after `steps` steps: one chosen id and one entry in each log per step, the
   * last entries are the running balance and reward, and every earlier balance is non-zero.
   */
  predicate LedgerAfter(p: ResourcePath, steps: nat) {
    1 <= steps &&
    |p.investmentsChosen| == steps &&
    |p.resourceLevelAtEachStep| == steps && |p.rewardLevelAtEachStep| == steps &&
    p.resourceLevelAtEachStep[steps - 1] == p.resourcesToSpend &&
    p.rewardLevelAtEachStep[steps - 1] == p.rewardToDate &&
    forall j :: 0 <= j < steps - 1 ==> p.resourceLevelAtEachStep[j] != 0
  }

  /**
   * A path's world against the original investments: the same ids with the same
   * multiplicities, every chosen id one of them, and well formed if they all were.
   */
  predicate WorldMatches(investments: seq<Investment>, p: ResourcePath) {
    |p.worldCopy| == |investments| &&
    multiset(Ids(p.worldCopy)) == multiset(Ids(investments)) &&
    (forall id :: id in p.investmentsChosen ==> id in Ids(investments)) &&
    (AllWellFormed(investments) ==> AllWellFormed(p.worldCopy))
  }

  /** A first-step path starts its ledger with one step. */
  lemma InitialLedger(investments: seq<Investment>, resources: int, p: ResourcePath)
    requires IsInitialPath(investments, resources, p)
    ensures LedgerAfter(p, 1)
  {
    var k, c :| 0 <= k < |investments| && c in NondominatedChoices(investments[k], resources) &&
                p == InitialPath(investments, resources, investments[k], c);
  }

  /** A child's ledger is its parent's with one more chosen id and one more entry in each log. */
  lemma ChildOfLedger(parent: ResourcePath, p: ResourcePath, resources: int)
    requires IsChildOf(parent, p, resources)
    ensures |p.investmentsChosen| == |parent.investmentsChosen| + 1
    ensures p.resourceLevelAtEachStep == parent.resourceLevelAtEachStep + [p.resourcesToSpend]
    ensures p.rewardLevelAtEachStep == parent.rewardLevelAtEachStep + [p.rewardToDate]
  {
    var inv, c :| inv in parent.worldCopy && c in NondominatedChoices(inv, resources) &&
                  p == ChildPath(parent, inv, c);
  }

  /** Extending a live parent's ledger by one step gives the ledger after one more step. */
  lemma ChildLedger(parent: ResourcePath, p: ResourcePath, steps: nat)
    requires 1 < steps && LedgerAfter(parent, steps - 1) && parent.resourcesToSpend != 0
    requires |p.investmentsChosen| == |parent.investmentsChosen| + 1
    requires p.resourceLevelAtEachStep == parent.resourceLevelAtEachStep + [p.resourcesToSpend]
    requires p.rewardLevelAtEachStep == parent.rewardLevelAtEachStep + [p.rewardToDate]
    ensures LedgerAfter(p, steps)
  {
    forall j | 0 <= j < steps - 1 ensures p.resourceLevelAtEachStep[j] != 0 {
      if j < steps - 2 {
        assert p.resourceLevelAtEachStep[j] == parent.resourceLevelAtEachStep[j];
      } else {
        assert p.resourceLevelAtEachStep[j] == parent.resourcesToSpend;
      }
    }
  }

  /**
   * An explored path's ledger has one entry per step, and every balance before the last was
   * non-zero: a path with nothing left to spend is never expanded.
   */
  lemma {:induction false} ExploredLedger(investments: seq<Investment>, resources: int, p: ResourcePath, steps: nat)
    requires Explored(investments, resources, p, steps)
    ensures LedgerAfter(p, steps)
    decreases steps, 1
  {
    if steps <= 1 {
      InitialLedger(investments, resources, p);
    } else {
      ExploredChildLedger(investments, resources, p, steps);
    }
  }

  /** The inductive step of ExploredLedger: a path beyond the first step extends its parent's ledger. */
  lemma {:induction false} ExploredChildLedger(investments: seq<Investment>, resources: int, p: ResourcePath, steps: nat)
    requires 1 < steps && Explored(investments, resources, p, steps)
    ensures LedgerAfter(p, steps)
    decreases steps, 0
  {
    var parent := ExploredParent(investments, resources, p, steps);
    ExploredLedger(investments, resources, parent, steps - 1);
    ChildOfLedger(parent, p, resources);
    ChildLedger(parent, p, steps);
  }

  /** A first-step path's world matches the original investments. */
  lemma InitialWorld(investments: seq<Investment>, resources: int, p: ResourcePath)
    requires IsInitialPath(investments, resources, p)
    requires DistinctIds(investments)
    ensures WorldMatches(investments, p)
  {
    var k, c :| 0 <= k < |investments| && c in NondominatedChoices(investments[k], resources) &&
                p == InitialPath(investments, resources, investments[k], c);
    InitialPathShape(investments, resources, k, c);
    assert Ids(investments)[k] == investments[k].id;
    if AllWellFormed(investments) {
      InitialWorldWellFormed(investments, resources, k, c);
    }
  }

  lemma InitialWorldWellFormed(investments: seq<Investment>, resources: int, k: nat, c: Payout)
    requires AllWellFormed(investments) && k < |investments| && c in NondominatedChoices(investments[k], resources)
    ensures AllWellFormed(InitialPath(investments, resources, investments[k], c).worldCopy)
  {
    var w := InitialPath(investments, resources, investments[k], c).worldCopy;
    var rest := WithoutId(investments, investments[k].id);
    assert w == [Recover(investments[k].ApplyPayout(c))] + rest;
    ChosenStaysWellFormed(investments[k], resources, c);
    WithoutIdKeepsWellFormed(investments, investments[k].id);
    ConsWellFormed(Recover(investments[k].ApplyPayout(c)), rest);
  }

  lemma ConsWellFormed(head: Investment, rest: seq<Investment>)
    requires head.WellFormed() && AllWellFormed(rest)
    ensures AllWellFormed([head] + rest)
  {
    forall j | 1 <= j < |[head] + rest| ensures ([head] + rest)[j].WellFormed() {
      assert ([head] + rest)[j] == rest[j - 1];
    }
  }

  /** The investment and choice a child was forked by. */
  lemma ChildChoice(parent: ResourcePath, p: ResourcePath, resources: int) returns (inv: Investment, c: Payout)
    requires IsChildOf(parent, p, resources)
    ensures inv in parent.worldCopy && c in NondominatedChoices(inv, resources)
    ensures p == ChildPath(parent, inv, c)
  {
    inv, c :| inv in parent.worldCopy && c in NondominatedChoices(inv, resources) &&
              p == ChildPath(parent, inv, c);
  }

  /** What a child's world owes to its parent's: the chosen investment and what it became. */
  lemma ChildChoiceWorld(parent: ResourcePath, p: ResourcePath, resources: int) returns (inv: Investment, updated: Investment)
    requires IsChildOf(parent, p, resources)
    ensures inv in parent.worldCopy && (inv.WellFormed() ==> updated.WellFormed())
    ensures Ids(p.worldCopy) == Ids(parent.worldCopy) && |p.worldCopy| == |parent.worldCopy|
    ensures p.investmentsChosen == parent.investmentsChosen + [inv.id]
    ensures forall j :: 0 <= j < |parent.worldCopy| ==>
      p.worldCopy[j] == Recover(if parent.worldCopy[j].id == inv.id then updated else parent.worldCopy[j])
  {
    var c;
    inv, c := ChildChoice(parent, p, resources);
    updated := inv.ApplyPayout(c);
    if inv.WellFormed() {
      ChosenStaysWellFormed(inv, resources, c);
    }
  }

  /** A child's world matches the original investments when its parent's does. */
  lemma ChildWorld(investments: seq<Investment>, parent: ResourcePath, p: ResourcePath, inv: Investment, updated: Investment)
    requires WorldMatches(investments, parent)
    requires inv in parent.worldCopy && (inv.WellFormed() ==> updated.WellFormed())
    requires Ids(p.worldCopy) == Ids(parent.worldCopy) && |p.worldCopy| == |parent.worldCopy|
    requires p.investmentsChosen == parent.investmentsChosen + [inv.id]
    requires forall j :: 0 <= j < |parent.worldCopy| ==>
      p.worldCopy[j] == Recover(if parent.worldCopy[j].id == inv.id then updated else parent.worldCopy[j])
    ensures WorldMatches(investments, p)
  {
    ChildWorldIds(investments, parent, p, inv);
    if AllWellFormed(investments) {
      ChildWorldWellFormed(parent, p, inv, updated);
    }
  }

  lemma ChildWorldIds(investments: seq<Investment>, parent: ResourcePath, p: ResourcePath, inv: Investment)
    requires WorldMatches(investments, parent)
    requires inv in parent.worldCopy
    requires Ids(p.worldCopy) == Ids(parent.worldCopy)
    requires p.investmentsChosen == parent.investmentsChosen + [inv.id]
    ensures |p.worldCopy| == |investments|
    ensures multiset(Ids(p.worldCopy)) == multiset(Ids(investments))
    ensures forall id :: id in p.investmentsChosen ==> id in Ids(investments)
  {
    var i :| 0 <= i < |parent.worldCopy| && parent.worldCopy[i] == inv;
    assert Ids(parent.worldCopy)[i] == inv.id;
    assert inv.id in multiset(Ids(investments));
    assert |p.worldCopy| == |Ids(parent.worldCopy)|;
  }

  lemma ChildWorldWellFormed(parent: ResourcePath, p: ResourcePath, inv: Investment, updated: Investment)
    requires AllWellFormed(parent.worldCopy) && updated.WellFormed()
    requires |p.worldCopy| == |parent.worldCopy|
    requires forall j :: 0 <= j < |parent.worldCopy| ==>
      p.worldCopy[j] == Recover(if parent.worldCopy[j].id == inv.id then updated else parent.worldCopy[j])
    ensures AllWellFormed(p.worldCopy)
  {
    forall j | 0 <= j < |parent.worldCopy| ensures p.worldCopy[j].WellFormed() {
      RecoveryKeepsWellFormed(updated);
      RecoveryKeepsWellFormed(parent.worldCopy[j]);
    }
  }

  /**
   * The world of an explored path holds the original investments (by id), every chosen id
   * names one of them, and well-formed investments stay well formed whatever was chosen.
   */
  lemma {:induction false} ExploredWorld(investments: seq<Investment>, resources: int, p: ResourcePath, steps: nat)
    requires Explored(investments, resources, p, steps)
    requires DistinctIds(investments)
    ensures WorldMatches(investments, p)
    decreases steps, 1
  {
    if steps <= 1 {
      InitialWorld(investments, resources, p);
    } else {
      ExploredChildWorld(investments, resources, p, steps);
    }
  }

  /** The inductive step of ExploredWorld: a path beyond the first step keeps its parent's world. */
  lemma {:induction false} ExploredChildWorld(investments: seq<Investment>, resources: int, p: ResourcePath, steps: nat)
    requires 1 < steps && Explored(investments, resources, p, steps)
    requires DistinctIds(investments)
    ensures WorldMatches(investments, p)
    decreases steps, 0
  {
    var parent := ExploredParent(investments, resources, p, steps);
    ExploredWorld(investments, resources, parent, steps - 1);
    var inv, updated := ChildChoiceWorld(parent, p, resources);
    ChildWorld(investments, parent, p, inv, updated);
  }

  /** A well-formed investment that takes one of its own choices, and then recovers, stays well formed. */
  lemma ChosenStaysWellFormed(inv: Investment, resources: int, c: Payout)
    requires inv.WellFormed() && c in NondominatedChoices(inv, resources)
    ensures inv.ApplyPayout(c).WellFormed()
    ensures Recover(inv.ApplyPayout(c)).WellFormed()
  {
    ChoiceIsPayoutOfOffer(inv, resources, c);
    var a :| 0 <= a && c == inv.ComputePayout(a);
    PayoutKeepsWellFormed(inv, a);
    RecoveryKeepsWellFormed(inv.ApplyPayout(c));
  }

  /**
   * A lone net-resource-positive investment, untouched and at full capacity, with a budget
   * that covers its threshold: after one step the only path has spent the threshold, and
   * its balance is the budget minus the threshold plus what the discharge returns.
   */
  lemma LoneDischargeBalance(inv: Investment, resources: int, p: ResourcePath)
    requires inv.WellFormed() && inv.IsNetResourcePositive()
    requires inv.currentResourcesInvested == 0 && inv.resourceCapacity == inv.dischargeThreshold
    requires inv.dischargeThreshold <= resources
    requires Explored([inv], resources, p, 1)
    ensures p.resourcesSpent == inv.dischargeThreshold
    ensures p.resourcesToSpend == resources - inv.dischargeThreshold + inv.resourceDischargeAmount
    ensures p.rewardToDate == inv.rewardDischargeAmount
    ensures p.investmentsChosen == [inv.id]
  {
    var k, c := InitialChoice([inv], resources, p);
    assert MaxSpend(inv, resources) == inv.dischargeThreshold;
    assert c == inv.ComputePayout(inv.dischargeThreshold);
  }

  /**
   * One investment with threshold 50, reward 10 and 60 resources returned, and a budget of
   * 50: the balance after the step is 60.
   */
  lemma SingleDischargeExample(p: ResourcePath)
    requires Explored([Investment("a", 50, 10, 60, 50, 50, 0)], 50, p, Steps(1))
    ensures p.resourcesSpent == 50 && p.resourcesToSpend == 60 && p.rewardToDate == 10
  {
    LoneDischargeBalance(Investment("a", 50, 10, 60, 50, 50, 0), 50, p);
  }
}
