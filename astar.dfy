/** aStarSearch: two priority queues pushed in step, one holding
    (state, accumulated cost), the other the path to that state, both at
    priority cost + heuristic(state); an explored list checked when an entry
    is popped. */
module AStar {
  import opened SearchProblems
  import opened Frontier
  import opened Optimality

  function ArrivalState(a: Arrival): State { a.state }

  /** The two queues hold the same number of entries at equal priorities, the
      i-th path leads from the start to the i-th state with the i-th cost as
      the sum of its step costs, and the priority is that cost plus the
      heuristic of the state. */
  ghost predicate Paired(p: Problem, h: Heuristic, fringe: seq<Entry<Arrival>>, paths: seq<Entry<seq<Action>>>)
  {
    && |fringe| == |paths|
    && (forall i :: 0 <= i < |fringe| ==> paths[i].priority == fringe[i].priority)
    && (forall i :: 0 <= i < |fringe| ==> Follow(p, p.start, paths[i].item) == Some(fringe[i].item))
    && (forall i :: 0 <= i < |fringe| ==>
          fringe[i].priority == fringe[i].item.cost + h(fringe[i].item.state, p) || fringe[i] == Entry(Arrival(p.start, 0), 0))
  }

  /** With nullHeuristic every priority is exactly the accumulated cost. */
  lemma NullPriorityIsCost(p: Problem, fringe: seq<Entry<Arrival>>, paths: seq<Entry<seq<Action>>>)
    requires Paired(p, NullHeuristic, fringe, paths)
    ensures forall i :: 0 <= i < |fringe| ==> fringe[i].priority == fringe[i].item.cost
  {
  }

  lemma PairedRemove(p: Problem, h: Heuristic, fringe: seq<Entry<Arrival>>, paths: seq<Entry<seq<Action>>>, k: nat)
    requires Paired(p, h, fringe, paths) && k < |fringe|
    ensures Paired(p, h, RemoveAt(fringe, k), RemoveAt(paths, k))
  {
  }

  /** Pushing an arrival together with a path that replays to it, at the
      arrival's cost plus its heuristic, keeps the two queues paired. */
  lemma PairedPush(p: Problem, h: Heuristic, fringe: seq<Entry<Arrival>>, paths: seq<Entry<seq<Action>>>,
                   a: Arrival, path: seq<Action>, priority: nat)
    requires Paired(p, h, fringe, paths)
    requires Follow(p, p.start, path) == Some(a) && priority == a.cost + h(a.state, p)
    ensures Paired(p, h, Push(fringe, a, priority), Push(paths, path, priority))
  {
    var f, ps := Push(fringe, a, priority), Push(paths, path, priority);
    forall i | 0 <= i < |f|
      ensures ps[i].priority == f[i].priority
      ensures Follow(p, p.start, ps[i].item) == Some(f[i].item)
      ensures f[i].priority == f[i].item.cost + h(f[i].item.state, p) || f[i] == Entry(Arrival(p.start, 0), 0)
    {
      if i < |fringe| {
        assert f[i] == fringe[i] && ps[i] == paths[i];
      }
    }
  }

  /** Pushing a successor of a state at the end of a queued path, with the
      extended path, keeps the two queues paired. */
  lemma PairedPushSuccessor(p: Problem, h: Heuristic, fringe: seq<Entry<Arrival>>, paths: seq<Entry<seq<Action>>>,
                            path: seq<Action>, state: State, cost: nat, tr: Transition, summed: nat, priority: nat)
    requires Paired(p, h, fringe, paths)
    requires Follow(p, p.start, path) == Some(Arrival(state, cost)) && Step(p, state, tr.action) == Some(tr)
    requires summed == cost + tr.stepCost && priority == summed + h(tr.succ, p)
    ensures Paired(p, h, Push(fringe, Arrival(tr.succ, summed), priority), Push(paths, path + [tr.action], priority))
  {
    FollowExtend(p, p.start, path, Arrival(state, cost), tr);
    PairedPush(p, h, fringe, paths, Arrival(tr.succ, summed), path + [tr.action], priority);
  }

  /** Pushing the j-th successor covers it and keeps what the frontier covered. */
  lemma PushStep(p: Problem, h: Heuristic, f: seq<Entry<Arrival>>, state: State, best: map<State, nat>,
                 j: nat, tr: Transition)
    requires state in best && j < |Successors(p, state)| && tr == Successors(p, state)[j]
    requires CrossingBut(p, h, f, ArrivalState, best, {state})
    requires SuccessorsCovered(p, h, f, ArrivalState, best, state, j)
    ensures var f' := Push(f, Arrival(tr.succ, best[state] + tr.stepCost), best[state] + tr.stepCost + h(tr.succ, p));
      && CrossingBut(p, h, f', ArrivalState, best, {state})
      && SuccessorsCovered(p, h, f', ArrivalState, best, state, j + 1)
  {
    var a := Arrival(tr.succ, best[state] + tr.stepCost);
    var priority := a.cost + h(a.state, p);
    var f' := Push(f, a, priority);
    PushDominates(f, ArrivalState, a, priority);
    GrowKeeps(p, h, f', f, ArrivalState, best, {state}, state, j);
    CoverNext(p, h, f', ArrivalState, best, state, j);
  }

  /** The explored list matches the ghost log of costs, lists each state
      once, and holds no goal. */
  ghost predicate Bookkeeping(p: Problem, explored: seq<State>, best: map<State, nat>)
  {
    && (forall s :: s in explored <==> s in best) && (forall s :: s in best ==> s in States(p))
    && Distinct(explored)
    && (forall s :: s in explored ==> !IsGoal(p, s))
    && (forall s :: s in explored ==> Reachable(p, s))
  }

  /** What holds each time the main loop of aStarSearch tests the fringe:
      the two queues are paired, every path leaving the explored region
      crosses a fringe entry whose priority is no more than its cost plus the
      heuristic, and with a consistent heuristic every explored state was
      expanded at its least cost. */
  ghost predicate Invariant(p: Problem, h: Heuristic, fringe: seq<Entry<Arrival>>, paths: seq<Entry<seq<Action>>>,
                            explored: seq<State>, best: map<State, nat>)
  {
    && Paired(p, h, fringe, paths)
    && Bookkeeping(p, explored, best)
    && Crossing(p, h, fringe, ArrivalState, best)
    && (Consistent(p, h) ==> Optimal(p, best))
  }

  /** Before the first pop only the start is queued, at priority 0 with the
      empty path. */
  lemma InitialInvariant(p: Problem, h: Heuristic)
    ensures Invariant(p, h, [Entry(Arrival(p.start, 0), 0)], [Entry([], 0)], [], map[])
  {
    var q := [Entry(Arrival(p.start, 0), 0)];
    assert q[0] in q;
    assert Covers(q, ArrivalState, p.start, h(p.start, p));
  }

  /** The start entry is pushed at priority 0 rather than at its heuristic;
      it is reached at cost 0, which no path undercuts. */
  lemma FreeIsCheapest(p: Problem, path: seq<Action>)
    requires ReachesGoal(p, path) && Follow(p, p.start, path).value.cost == 0
    ensures Cheapest(p, path)
  {
  }

  lemma FreeKeepsOptimal(p: Problem, best: map<State, nat>, s: State)
    requires Optimal(p, best)
    ensures Optimal(p, best[s := 0])
  {
  }

  /** A popped goal's path reaches it; with a consistent heuristic it is a
      cheapest path to a goal. */
  lemma GoalFound(p: Problem, h: Heuristic, fringe: seq<Entry<Arrival>>, paths: seq<Entry<seq<Action>>>, k: nat,
                  explored: seq<State>, best: map<State, nat>)
    requires fringe != [] && k == MinIndex(fringe) && IsGoal(p, fringe[k].item.state)
    requires Invariant(p, h, fringe, paths, explored, best)
    ensures ReachesGoal(p, paths[k].item)
    ensures Consistent(p, h) ==> Cheapest(p, paths[k].item)
  {
    if Consistent(p, h) {
      MinIsLowerBound(p, h, fringe, ArrivalState, best, fringe[k].priority);
      if fringe[k] == Entry(Arrival(p.start, 0), 0) {
        FreeIsCheapest(p, paths[k].item);
      } else {
        GoalPoppedIsCheapest(p, h, best, paths[k].item, fringe[k].item.cost);
      }
    }
  }

  /** Dropping an entry whose state is already explored keeps the invariant. */
  lemma SkipKeeps(p: Problem, h: Heuristic, fringe: seq<Entry<Arrival>>, paths: seq<Entry<seq<Action>>>, k: nat,
                  explored: seq<State>, best: map<State, nat>)
    requires k < |fringe| && fringe[k].item.state in explored
    requires Invariant(p, h, fringe, paths, explored, best)
    ensures Invariant(p, h, RemoveAt(fringe, k), RemoveAt(paths, k), explored, best)
  {
    PairedRemove(p, h, fringe, paths, k);
    PopKeeps(p, h, fringe, ArrivalState, best, best, {}, k);
  }

  /** With a consistent heuristic, exploring the state of the least entry at
      its accumulated cost keeps every explored cost optimal. */
  lemma ExploreOptimal(p: Problem, h: Heuristic, fringe: seq<Entry<Arrival>>, paths: seq<Entry<seq<Action>>>,
                       k: nat, best: map<State, nat>)
    requires fringe != [] && k == MinIndex(fringe) && fringe[k].item.state !in best
    requires Paired(p, h, fringe, paths)
    requires Consistent(p, h) && Crossing(p, h, fringe, ArrivalState, best) && Optimal(p, best)
    ensures Optimal(p, best[fringe[k].item.state := fringe[k].item.cost])
  {
    MinIsLowerBound(p, h, fringe, ArrivalState, best, fringe[k].priority);
    if fringe[k] == Entry(Arrival(p.start, 0), 0) {
      FreeKeepsOptimal(p, best, fringe[k].item.state);
    } else {
      ExpandKeepsOptimal(p, h, best, fringe[k].item.state, fringe[k].item.cost);
    }
  }

  /** Exploring the state of a popped entry that is not a goal keeps the
      bookkeeping and leaves only that state's successors to be covered. */
  lemma ExploreKeeps(p: Problem, h: Heuristic, fringe: seq<Entry<Arrival>>, paths: seq<Entry<seq<Action>>>, k: nat,
                     explored: seq<State>, best: map<State, nat>, explored': seq<State>, best': map<State, nat>)
    requires k < |fringe| && fringe[k].item.state !in explored && !IsGoal(p, fringe[k].item.state)
    requires Invariant(p, h, fringe, paths, explored, best)
    requires explored' == explored + [fringe[k].item.state]
    requires best' == best[fringe[k].item.state := fringe[k].item.cost]
    ensures Bookkeeping(p, explored', best')
    ensures Paired(p, h, RemoveAt(fringe, k), RemoveAt(paths, k))
    ensures CrossingBut(p, h, RemoveAt(fringe, k), ArrivalState, best', {fringe[k].item.state})
    ensures Follow(p, p.start, paths[k].item) == Some(fringe[k].item)
    ensures |States(p) - best'.Keys| < |States(p) - best.Keys|
  {
    var state := fringe[k].item.state;
    FollowInStates(p, p.start, paths[k].item);
    ReachedBy(p, paths[k].item, state);
    FewerUnexploredKeys(States(p), best, state, fringe[k].item.cost);
    DistinctAppend(explored, state);
    PairedRemove(p, h, fringe, paths, k);
    PopKeeps(p, h, fringe, ArrivalState, best, best', {state}, k);
  }

  /** The loop over getSuccessors of a newly explored state: every successor
      is pushed on both queues, with the summed cost and the extended path. */
  method PushAllSuccessors(p: Problem, h: Heuristic, fringe: seq<Entry<Arrival>>, paths: seq<Entry<seq<Action>>>,
                           state: State, cost: nat, path: seq<Action>, ghost best: map<State, nat>)
    returns (f: seq<Entry<Arrival>>, ps: seq<Entry<seq<Action>>>)
    requires WellFormed(p)
    requires state in best && best[state] == cost
    requires Follow(p, p.start, path) == Some(Arrival(state, cost))
    requires Paired(p, h, fringe, paths)
    requires CrossingBut(p, h, fringe, ArrivalState, best, {state})
    ensures Paired(p, h, f, ps)
    ensures Crossing(p, h, f, ArrivalState, best)
  {
    f, ps := fringe, paths;
    var succs := Successors(p, state);
    var j := 0;
    while j < |succs|
      invariant 0 <= j <= |succs|
      invariant Paired(p, h, f, ps)
      invariant CrossingBut(p, h, f, ArrivalState, best, {state})
      invariant SuccessorsCovered(p, h, f, ArrivalState, best, state, j)
    {
      var tr := succs[j];
      var summed: nat := cost + tr.stepCost;
      var priority: nat := summed + h(tr.succ, p);
      StepOfSuccessor(p, state, tr);
      PairedPushSuccessor(p, h, f, ps, path, state, cost, tr, summed, priority);
      PushStep(p, h, f, state, best, j, tr);
      f, ps := Push(f, Arrival(tr.succ, summed), priority), Push(ps, path + [tr.action], priority);
      j := j + 1;
    }
    CoveredFinishes(p, h, f, ArrivalState, best, {state}, state);
  }

  /** One pass of the main loop once the popped entry is known not to be a
      goal: pop both queues, and if the state is new, explore it and push
      all its successors. */
  method ExpandPopped(p: Problem, h: Heuristic, fringe: seq<Entry<Arrival>>, paths: seq<Entry<seq<Action>>>, k: nat,
                      explored: seq<State>, ghost best: map<State, nat>)
    returns (fringe': seq<Entry<Arrival>>, paths': seq<Entry<seq<Action>>>, explored': seq<State>, ghost best': map<State, nat>)
    requires WellFormed(p)
    requires fringe != [] && k == MinIndex(fringe) && !IsGoal(p, fringe[k].item.state)
    requires Invariant(p, h, fringe, paths, explored, best)
    ensures Invariant(p, h, fringe', paths', explored', best')
    ensures |States(p) - best'.Keys| < |States(p) - best.Keys| || (best' == best && |fringe'| < |fringe|)
  {
    var state, cost := fringe[k].item.state, fringe[k].item.cost;
    var path := paths[k].item;
    fringe', paths' := RemoveAt(fringe, k), RemoveAt(paths, k);
    if state !in explored {
      explored' := explored + [state];
      best' := best[state := cost];
      ExploreKeeps(p, h, fringe, paths, k, explored, best, explored', best');
      if Consistent(p, h) {
        ExploreOptimal(p, h, fringe, paths, k, best);
      }
      fringe', paths' := PushAllSuccessors(p, h, fringe', paths', state, cost, path, best');
    } else {
      explored', best' := explored, best;
      SkipKeeps(p, h, fringe, paths, k, explored, best);
    }
  }

  /** A fringe run empty means no goal can be reached. */
  lemma Exhausted(p: Problem, h: Heuristic, explored: seq<State>, best: map<State, nat>)
    requires Invariant(p, h, [], [], explored, best)
    ensures NoGoalReachable(p)
  {
    ExhaustedMeansUnreachable(p, h, ArrivalState, best);
  }

  method AStarSearch(p: Problem, h: Heuristic) returns (r: seq<Action>, ghost expanded: seq<State>)
    requires WellFormed(p)
    ensures ReachesGoal(p, r) || (r == [] && NoGoalReachable(p))
    ensures Consistent(p, h) ==> Cheapest(p, r) || (r == [] && NoGoalReachable(p))
    ensures IsGoal(p, p.start) ==> r == [] && expanded == []
    ensures Distinct(expanded) && forall s :: s in expanded ==> !IsGoal(p, s)
    ensures forall s :: s in expanded ==> Reachable(p, s)
  {
    var fringe: seq<Entry<Arrival>> := [Entry(Arrival(StartState(p), 0), 0)];
    var paths: seq<Entry<seq<Action>>> := [Entry([], 0)];
    var explored: seq<State> := [];
    ghost var best: map<State, nat> := map[];
    InitialInvariant(p, h);
    while fringe != []
      invariant Invariant(p, h, fringe, paths, explored, best)
      invariant IsGoal(p, p.start) ==> explored == [] && fringe == [Entry(Arrival(p.start, 0), 0)] && paths == [Entry([], 0)]
      decreases |States(p) - best.Keys|, |fringe|
    {
      var k := MinIndex(fringe);
      var k' := MinIndex(paths);
      MinIndexByPriorities(fringe, paths);
      var node, path := fringe[k].item, paths[k'].item;
      if IsGoal(p, node.state) {
        GoalFound(p, h, fringe, paths, k, explored, best);
        return path, explored;
      }
      fringe, paths, explored, best := ExpandPopped(p, h, fringe, paths, k, explored, best);
    }
    Exhausted(p, h, explored, best);
    return [], explored;
  }

  /** aStarSearch called without a heuristic uses nullHeuristic, and then
      finds a path of least total cost. */
  method AStarSearchNull(p: Problem) returns (r: seq<Action>)
    requires WellFormed(p)
    ensures Cheapest(p, r) || (r == [] && NoGoalReachable(p))
  {
    NullIsConsistent(p, NullHeuristic);
    ghost var expanded;
    r, expanded := AStarSearch(p, NullHeuristic);
  }
}
