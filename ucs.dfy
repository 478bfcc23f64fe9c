/** uniformCostSearch: a priority frontier keyed by getCostOfActions of the
    path each entry carries, an explored set checked when an entry is popped. */
module UniformCost {
  import opened SearchProblems
  import opened Frontier
  import opened Optimality

  /** A fringe item: the start as (start, (), []), or a successor triple
      together with the path that reaches it. */
  datatype Item = Root(state: State, path: seq<Action>)
                | Via(state: State, action: Action, stepCost: nat, path: seq<Action>)

  function ItemState(it: Item): State { it.state }

  /** Every entry's path leads from the start to its state, and its priority
      is getCostOfActions of that path. */
  ghost predicate Sound(p: Problem, q: seq<Entry<Item>>)
  {
    forall e :: e in q ==> Follow(p, p.start, e.item.path) == Some(Arrival(e.item.state, e.priority))
  }

  /** Offering an entry whose path leads to its state at its priority keeps
      the fringe sound. */
  lemma UpdateKeepsSound(p: Problem, q: seq<Entry<Item>>, it: Item, priority: nat)
    requires Sound(p, q)
    requires Follow(p, p.start, it.path) == Some(Arrival(it.state, priority))
    ensures Sound(p, Update(q, it, priority))
  {
    UpdateAddsOnly(q, it, priority);
  }

  /** Offering a successor with the extended path keeps the fringe sound. */
  lemma OfferSound(p: Problem, r: seq<Entry<Item>>, path: seq<Action>, state: State, cost: nat,
                   tr: Transition, item: Item, priority: nat)
    requires Follow(p, p.start, path) == Some(Arrival(state, cost)) && Step(p, state, tr.action) == Some(tr)
    requires item == Via(tr.succ, tr.action, tr.stepCost, path + [tr.action]) && priority == cost + tr.stepCost
    requires Sound(p, r)
    ensures Sound(p, Update(r, item, priority))
  {
    FollowExtend(p, p.start, path, Arrival(state, cost), tr);
    UpdateKeepsSound(p, r, item, priority);
  }

  /** Offering the j-th successor of an explored state, not itself explored,
      covers it and keeps what the fringe covered. */
  lemma OfferStep(p: Problem, r: seq<Entry<Item>>, best: map<State, nat>, state: State,
                  j: nat, tr: Transition, item: Item, priority: nat)
    requires state in best && j < |Successors(p, state)| && tr == Successors(p, state)[j] && tr.succ !in best
    requires item.state == tr.succ && priority == best[state] + tr.stepCost
    requires CrossingBut(p, NullHeuristic, r, ItemState, best, {state})
    requires SuccessorsCovered(p, NullHeuristic, r, ItemState, best, state, j)
    ensures CrossingBut(p, NullHeuristic, Update(r, item, priority), ItemState, best, {state})
    ensures SuccessorsCovered(p, NullHeuristic, Update(r, item, priority), ItemState, best, state, j + 1)
  {
    UpdateDominates(r, ItemState, item, priority);
    var next := Update(r, item, priority);
    GrowKeeps(p, NullHeuristic, next, r, ItemState, best, {state}, state, j);
    CoverNext(p, NullHeuristic, next, ItemState, best, state, j);
  }

  /** The loop over getSuccessors of a newly explored state: every successor
      not yet explored is offered to update with the extended path, at the
      priority getCostOfActions gives that path. */
  method PushSuccessors(p: Problem, fringe: seq<Entry<Item>>, explored: set<State>, state: State,
                        path: seq<Action>, ghost best: map<State, nat>)
    returns (r: seq<Entry<Item>>)
    requires WellFormed(p)
    requires (forall s :: s in explored <==> s in best) && state in best
    requires Follow(p, p.start, path) == Some(Arrival(state, best[state]))
    requires Sound(p, fringe)
    requires CrossingBut(p, NullHeuristic, fringe, ItemState, best, {state})
    ensures Sound(p, r)
    ensures Crossing(p, NullHeuristic, r, ItemState, best)
  {
    r := fringe;
    var succs := Successors(p, state);
    var j := 0;
    while j < |succs|
      invariant 0 <= j <= |succs|
      invariant Sound(p, r)
      invariant CrossingBut(p, NullHeuristic, r, ItemState, best, {state})
      invariant SuccessorsCovered(p, NullHeuristic, r, ItemState, best, state, j)
    {
      var tr := succs[j];
      if tr.succ !in explored {
        var newPath := path + [tr.action];
        StepOfSuccessor(p, state, tr);
        CostOfExtension(p, path, Arrival(state, best[state]), tr);
        var item := Via(tr.succ, tr.action, tr.stepCost, newPath);
        var priority := CostOfActions(p, newPath).value;
        OfferSound(p, r, path, state, best[state], tr, item, priority);
        OfferStep(p, r, best, state, j, tr, item, priority);
        r := Update(r, item, priority);
      } else {
        CoverNext(p, NullHeuristic, r, ItemState, best, state, j);
      }
      j := j + 1;
    }
    CoveredFinishes(p, NullHeuristic, r, ItemState, best, {state}, state);
  }

  /** The explored set matches the ghost log of costs and of expansion
      order, and no explored state is a goal. */
  ghost predicate Bookkeeping(p: Problem, explored: set<State>, best: map<State, nat>, expanded: seq<State>)
  {
    && (forall s :: s in explored <==> s in best) && explored <= States(p)
    && Distinct(expanded) && (forall s :: s in expanded <==> s in explored)
    && (forall s :: s in explored ==> !IsGoal(p, s))
    && (forall s :: s in expanded ==> Reachable(p, s))
  }

  /** What holds each time the main loop of uniformCostSearch tests the
      fringe: entries are sound, every path leaving the explored region
      crosses a fringe entry no dearer than it, and every explored state was
      expanded at its least cost. */
  ghost predicate Invariant(p: Problem, fringe: seq<Entry<Item>>, explored: set<State>,
                            best: map<State, nat>, expanded: seq<State>)
  {
    && Sound(p, fringe)
    && Bookkeeping(p, explored, best, expanded)
    && Crossing(p, NullHeuristic, fringe, ItemState, best)
    && Optimal(p, best)
  }

  /** Dropping an entry whose state is already explored keeps the invariant. */
  lemma SkipKeeps(p: Problem, fringe: seq<Entry<Item>>, k: nat, explored: set<State>,
                  best: map<State, nat>, expanded: seq<State>)
    requires k < |fringe| && fringe[k].item.state in explored
    requires Invariant(p, fringe, explored, best, expanded)
    ensures Invariant(p, RemoveAt(fringe, k), explored, best, expanded)
  {
    RemoveAtSubset(fringe, k);
    PopKeeps(p, NullHeuristic, fringe, ItemState, best, best, {}, k);
  }

  /** Exploring the state of the least entry at that entry's priority keeps
      every explored cost optimal. */
  lemma ExploreOptimal(p: Problem, fringe: seq<Entry<Item>>, k: nat, best: map<State, nat>)
    requires fringe != [] && k == MinIndex(fringe) && fringe[k].item.state !in best
    requires Crossing(p, NullHeuristic, fringe, ItemState, best) && Optimal(p, best)
    ensures Optimal(p, best[fringe[k].item.state := fringe[k].priority])
  {
    assert fringe[k] in fringe;
    MinIsLowerBound(p, NullHeuristic, fringe, ItemState, best, fringe[k].priority);
    ExpandKeepsOptimal(p, NullHeuristic, best, fringe[k].item.state, fringe[k].priority);
  }

  /** Exploring the state of a popped entry that is not a goal keeps the
      bookkeeping and leaves only that state's successors to be covered. */
  lemma ExploreKeeps(p: Problem, fringe: seq<Entry<Item>>, k: nat, explored: set<State>,
                     best: map<State, nat>, expanded: seq<State>,
                     explored': set<State>, best': map<State, nat>, expanded': seq<State>)
    requires k < |fringe| && fringe[k].item.state !in explored && !IsGoal(p, fringe[k].item.state)
    requires Invariant(p, fringe, explored, best, expanded)
    requires explored' == explored + {fringe[k].item.state}
    requires best' == best[fringe[k].item.state := fringe[k].priority]
    requires expanded' == expanded + [fringe[k].item.state]
    ensures Bookkeeping(p, explored', best', expanded')
    ensures Sound(p, RemoveAt(fringe, k))
    ensures CrossingBut(p, NullHeuristic, RemoveAt(fringe, k), ItemState, best', {fringe[k].item.state})
    ensures Follow(p, p.start, fringe[k].item.path) == Some(Arrival(fringe[k].item.state, best'[fringe[k].item.state]))
    ensures |States(p) - explored'| < |States(p) - explored|
  {
    var state := fringe[k].item.state;
    assert fringe[k] in fringe;
    FollowInStates(p, p.start, fringe[k].item.path);
    ReachedBy(p, fringe[k].item.path, state);
    FewerUnexplored(States(p), explored, state);
    DistinctAppend(expanded, state);
    RemoveAtSubset(fringe, k);
    PopKeeps(p, NullHeuristic, fringe, ItemState, best, best', {state}, k);
  }

  /** One pass of the main loop once the popped entry is known not to be a
      goal: drop it, and if its state is new, explore it and offer its
      successors to the fringe. */
  method ExpandPopped(p: Problem, fringe: seq<Entry<Item>>, k: nat, explored: set<State>,
                      ghost best: map<State, nat>, ghost expanded: seq<State>)
    returns (fringe': seq<Entry<Item>>, explored': set<State>, ghost best': map<State, nat>, ghost expanded': seq<State>)
    requires WellFormed(p)
    requires fringe != [] && k == MinIndex(fringe) && !IsGoal(p, fringe[k].item.state)
    requires Invariant(p, fringe, explored, best, expanded)
    ensures Invariant(p, fringe', explored', best', expanded')
    ensures |States(p) - explored'| < |States(p) - explored| || (explored' == explored && |fringe'| < |fringe|)
  {
    var e := fringe[k];
    var state, path := e.item.state, e.item.path;
    fringe' := RemoveAt(fringe, k);
    if state !in explored {
      explored' := explored + {state};
      best' := best[state := e.priority];
      expanded' := expanded + [state];
      ExploreKeeps(p, fringe, k, explored, best, expanded, explored', best', expanded');
      ExploreOptimal(p, fringe, k, best);
      fringe' := PushSuccessors(p, fringe', explored', state, path, best');
    } else {
      explored', best', expanded' := explored, best, expanded;
      SkipKeeps(p, fringe, k, explored, best, expanded);
    }
  }

  /** Before the first pop only the start entry is on the fringe. */
  lemma InitialInvariant(p: Problem)
    ensures Invariant(p, [Entry(Root(p.start, []), 0)], {}, map[], [])
  {
    var q := [Entry(Root(p.start, []), 0)];
    assert q[0] in q;
    assert Covers(q, ItemState, p.start, NullHeuristic(p.start, p));
  }

  /** A goal popped as the least entry was reached by a cheapest path. */
  lemma GoalFound(p: Problem, fringe: seq<Entry<Item>>, k: nat, explored: set<State>,
                  best: map<State, nat>, expanded: seq<State>)
    requires fringe != [] && k == MinIndex(fringe) && IsGoal(p, fringe[k].item.state)
    requires Invariant(p, fringe, explored, best, expanded)
    ensures Cheapest(p, fringe[k].item.path)
  {
    var e := fringe[k];
    assert e in fringe;
    MinIsLowerBound(p, NullHeuristic, fringe, ItemState, best, e.priority);
    GoalPoppedIsCheapest(p, NullHeuristic, best, e.item.path, e.priority);
  }

  /** A fringe run empty means no goal can be reached. */
  lemma Exhausted(p: Problem, explored: set<State>, best: map<State, nat>, expanded: seq<State>)
    requires Invariant(p, [], explored, best, expanded)
    ensures NoGoalReachable(p)
  {
    ExhaustedMeansUnreachable(p, NullHeuristic, ItemState, best);
  }

  method UniformCostSearch(p: Problem) returns (r: Option<seq<Action>>, ghost expanded: seq<State>)
    requires WellFormed(p)
    ensures r.Some? ==> Cheapest(p, r.value)
    ensures r.None? ==> NoGoalReachable(p)
    ensures IsGoal(p, p.start) ==> r == Some([]) && expanded == []
    ensures Distinct(expanded) && forall s :: s in expanded ==> !IsGoal(p, s)
    ensures forall s :: s in expanded ==> Reachable(p, s)
  {
    var fringe: seq<Entry<Item>> := [Entry(Root(StartState(p), []), 0)];
    var explored: set<State> := {};
    ghost var best: map<State, nat> := map[];
    expanded := [];
    InitialInvariant(p);
    while fringe != []
      invariant Invariant(p, fringe, explored, best, expanded)
      invariant IsGoal(p, p.start) ==> expanded == [] && fringe == [Entry(Root(p.start, []), 0)]
      decreases |States(p) - explored|, |fringe|
    {
      var k := MinIndex(fringe);
      var e := fringe[k];
      if IsGoal(p, e.item.state) {
        GoalFound(p, fringe, k, explored, best, expanded);
        return Some(e.item.path), expanded;
      }
      fringe, explored, best, expanded := ExpandPopped(p, fringe, k, explored, best, expanded);
    }
    Exhausted(p, explored, best, expanded);
    return None, expanded;
  }
}
