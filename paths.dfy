/**
 * The ledger of one candidate trajectory, and how a path is opened on the first step
 * and forked on every later one.
 */
module Paths {
  import opened PayoutTypes
  import opened MinimalInvestment
  import opened InvestmentUtils

  /**
   * One trajectory: the running spend, the balance left, the reward so far, the ids of
   * the investments chosen (in time order), the path's own world of investments and the
   * balance and reward recorded after each step.
   */
  datatype ResourcePath = ResourcePath(
    resourcesSpent: int,
    resourcesToSpend: int,
    rewardToDate: int,
    investmentsChosen: seq<string>,
    worldCopy: seq<Investment>,
    resourceLevelAtEachStep: seq<int>,
    rewardLevelAtEachStep: seq<int>)

  /** The investments, in order, whose id differs from `id`. */
  function WithoutId(investments: seq<Investment>, id: string): (r: seq<Investment>)
    ensures forall x :: x in r <==> x in investments && x.id != id
    ensures |r| <= |investments|
    ensures |investments| == 1 ==> r == (if investments[0].id == id then [] else investments)
  {
    if investments == [] then []
    else if investments[0].id == id then WithoutId(investments[1..], id)
    else [investments[0]] + WithoutId(investments[1..], id)
  }

  /** The filter works element by element: on a concatenation it filters each part and keeps their order. */
  lemma {:induction false} WithoutIdAppend(a: seq<Investment>, b: seq<Investment>, id: string)
    ensures WithoutId(a + b, id) == WithoutId(a, id) + WithoutId(b, id)
    decreases |a|
  {
    if a == [] {
      assert a + b == b;
    } else {
      assert (a + b)[0] == a[0] && (a + b)[1..] == a[1..] + b;
      WithoutIdAppend(a[1..], b, id);
    }
  }

  /** Every investment without the id is kept as often as it occurs, and none with it. */
  lemma {:induction false} WithoutIdCounts(investments: seq<Investment>, id: string, x: Investment)
    ensures multiset(WithoutId(investments, id))[x] == if x.id == id then 0 else multiset(investments)[x]
    decreases |investments|
  {
    if investments != [] {
      WithoutIdCounts(investments[1..], id, x);
      assert investments == [investments[0]] + investments[1..];
    }
  }

  /** The world with every investment carrying `id` replaced by `x`. */
  function ReplaceById(world: seq<Investment>, id: string, x: Investment): (r: seq<Investment>)
    ensures |r| == |world|
    ensures forall k :: 0 <= k < |world| ==> r[k] == if world[k].id == id then x else world[k]
  {
    seq(|world|, k requires 0 <= k < |world| => if world[k].id == id then x else world[k])
  }

  /**
   * The path a first-step choice opens: the chosen investment, updated and recovered,
   * comes first in the new world, followed by unchanged copies of all the others.
   */
  function InitialPath(investments: seq<Investment>, resources: int, investment: Investment, choice: Payout): (p: ResourcePath)
    ensures |p.worldCopy| > 0 && p.investmentsChosen == [investment.id]
    ensures p.resourceLevelAtEachStep == [p.resourcesToSpend] && p.rewardLevelAtEachStep == [p.rewardToDate]
    ensures p.resourcesToSpend - resources == choice.resourceProfit && p.rewardToDate == choice.reward
  {
    var toSpend := resources + choice.resourceProfit;
    ResourcePath(
      choice.resourcesSpent,
      toSpend,
      choice.reward,
      [investment.id],
      [Recover(investment.ApplyPayout(choice))] + WithoutId(investments, investment.id),
      [toSpend],
      [choice.reward])
  }

  /**
   * The child a later-step choice forks from `parent`: the choice is added to each running
   * total and log, and every investment of the child's world recovers after the chosen one
   * is updated.
   */
  function ChildPath(parent: ResourcePath, investment: Investment, choice: Payout): (c: ResourcePath)
    ensures |c.worldCopy| == |parent.worldCopy|
    ensures c.resourceLevelAtEachStep == parent.resourceLevelAtEachStep + [c.resourcesToSpend]
    ensures c.rewardLevelAtEachStep == parent.rewardLevelAtEachStep + [c.rewardToDate]
    ensures c.resourcesToSpend - parent.resourcesToSpend == choice.resourceProfit
    ensures c.rewardToDate - parent.rewardToDate == choice.reward
    ensures c.resourcesSpent - parent.resourcesSpent == choice.resourcesSpent
    ensures c.investmentsChosen == parent.investmentsChosen + [investment.id]
    // the world keeps its ids in order, every investment recovers, and only the chosen id takes the choice
    ensures Ids(c.worldCopy) == Ids(parent.worldCopy)
    ensures forall j :: 0 <= j < |parent.worldCopy| ==>
      c.worldCopy[j] == Recover(if parent.worldCopy[j].id == investment.id then investment.ApplyPayout(choice)
                                else parent.worldCopy[j])
  {
    var toSpend := parent.resourcesToSpend + choice.resourceProfit;
    var reward := parent.rewardToDate + choice.reward;
    ResourcePath(
      parent.resourcesSpent + choice.resourcesSpent,
      toSpend,
      reward,
      parent.investmentsChosen + [investment.id],
      RecoverAll(ReplaceById(parent.worldCopy, investment.id, investment.ApplyPayout(choice))),
      parent.resourceLevelAtEachStep + [toSpend],
      parent.rewardLevelAtEachStep + [reward])
  }

  function Ids(world: seq<Investment>): (ids: seq<string>)
    ensures |ids| == |world|
    ensures forall k :: 0 <= k < |world| ==> ids[k] == world[k].id
  {
    seq(|world|, k requires 0 <= k < |world| => world[k].id)
  }

  /** Ids are unique, as they are for the members of a set of investments. */
  predicate DistinctIds(world: seq<Investment>) {
    forall i, j :: 0 <= i < j < |world| ==> world[i].id != world[j].id
  }

  predicate AllWellFormed(world: seq<Investment>) {
    forall k :: 0 <= k < |world| ==> world[k].WellFormed()
  }

  /** Removing an id keeps a well-formed world well formed. */
  lemma WithoutIdKeepsWellFormed(investments: seq<Investment>, id: string)
    requires AllWellFormed(investments)
    ensures AllWellFormed(WithoutId(investments, id))
  {
    var rest := WithoutId(investments, id);
    forall j | 0 <= j < |rest| ensures rest[j].WellFormed() {
      assert rest[j] in rest;
      var i :| 0 <= i < |investments| && investments[i] == rest[j];
    }
  }

  lemma {:induction false} WithoutPresentId(investments: seq<Investment>, k: nat)
    requires DistinctIds(investments) && k < |investments|
    ensures |WithoutId(investments, investments[k].id)| == |investments| - 1
    ensures multiset(Ids(WithoutId(investments, investments[k].id))) + multiset{investments[k].id} == multiset(Ids(investments))
    decreases |investments|
  {
    var id := investments[k].id;
    var tail := investments[1..];
    assert Ids(investments) == [investments[0].id] + Ids(tail);
    if k == 0 {
      assert forall x :: x in tail ==> x.id != id;
      WithoutAbsentId(tail, id);
    } else {
      assert tail[k - 1] == investments[k];
      WithoutPresentId(tail, k - 1);
      assert Ids(WithoutId(investments, id)) == [investments[0].id] + Ids(WithoutId(tail, id));
    }
  }

  lemma {:induction false} WithoutAbsentId(investments: seq<Investment>, id: string)
    requires forall x :: x in investments ==> x.id != id
    ensures WithoutId(investments, id) == investments
  {
    if investments != [] {
      WithoutAbsentId(investments[1..], id);
      assert investments == [investments[0]] + investments[1..];
    }
  }

  /**
   * The first-step fork: the ledger holds exactly the choice, the world keeps every id of
   * the original investments, and the chosen one comes first, updated and recovered.
   */
  lemma InitialPathShape(investments: seq<Investment>, resources: int, k: nat, choice: Payout)
    requires DistinctIds(investments) && k < |investments|
    ensures var p := InitialPath(investments, resources, investments[k], choice);
      p.resourcesToSpend == resources + choice.resourceProfit &&
      p.rewardToDate == choice.reward && p.resourcesSpent == choice.resourcesSpent &&
      p.investmentsChosen == [investments[k].id] &&
      p.resourceLevelAtEachStep == [p.resourcesToSpend] && p.rewardLevelAtEachStep == [p.rewardToDate] &&
      |p.worldCopy| == |investments| &&
      multiset(Ids(p.worldCopy)) == multiset(Ids(investments)) &&
      p.worldCopy[0] == Recover(investments[k].ApplyPayout(choice))
  {
    var p := InitialPath(investments, resources, investments[k], choice);
    var rest := WithoutId(investments, investments[k].id);
    WithoutPresentId(investments, k);
    assert p.worldCopy == [p.worldCopy[0]] + rest;
    assert Ids(p.worldCopy) == [investments[k].id] + Ids(rest);
  }

  /**
   * On the first step the investments that were not chosen are copied as they are: they
   * do not recover, unlike on every later step.
   */
  lemma InitialPathKeepsOthers(investments: seq<Investment>, resources: int, k: nat, choice: Payout)
    requires DistinctIds(investments) && k < |investments|
    ensures var p := InitialPath(investments, resources, investments[k], choice);
      forall x :: x in p.worldCopy[1..] <==> x in investments && x != investments[k]
  {
    var p := InitialPath(investments, resources, investments[k], choice);
    assert p.worldCopy[1..] == WithoutId(investments, investments[k].id);
    forall x | x in investments && x != investments[k] ensures x.id != investments[k].id {
      var j :| 0 <= j < |investments| && investments[j] == x;
      assert j != k;
    }
  }
}
