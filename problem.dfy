/** The search problem interface: a start state, a goal test, the successor
    triples of a state and the cost of an action sequence. A concrete problem
    is given as a finite graph: each state maps to the ordered list of its
    successor transitions (successor, action, step cost). */
module SearchProblems {

  type State = int
  type Action = string

  datatype Option<T> = None | Some(value: T)

  /** One successor triple (successor, action, stepCost). */
  datatype Transition = Transition(succ: State, action: Action, stepCost: nat)

  datatype Problem = Problem(start: State, goals: set<State>, graph: map<State, seq<Transition>>)

  /** Where a replayed action sequence ends and what it costs in total. */
  datatype Arrival = Arrival(state: State, cost: nat)

  /** getStartState: the start is a state of the problem, reached by the
      empty plan. */
  function StartState(p: Problem): (r: State)
    ensures r in States(p) && Reachable(p, r)
    ensures Follow(p, p.start, []) == Some(Arrival(r, 0))
  {
    ReachedBy(p, [], p.start);
    p.start
  }

  /** isGoalState */
  predicate IsGoal(p: Problem, s: State) { s in p.goals }

  /** getSuccessors: a state the graph does not list is a dead end. */
  function Successors(p: Problem, s: State): seq<Transition>
  {
    if s in p.graph then p.graph[s] else []
  }

  /** An action names at most one move out of a state, so an action sequence
      determines the path it takes (getCostOfActions needs only the actions). */
  predicate WellFormed(p: Problem)
  {
    forall s, i, j :: s in p.graph && 0 <= i < j < |p.graph[s]| ==> p.graph[s][i].action != p.graph[s][j].action
  }

  /** The move an action makes from a state, if it is legal there. */
  function Step(p: Problem, s: State, a: Action): (r: Option<Transition>)
    ensures r.Some? ==> r.value in Successors(p, s) && r.value.action == a
    ensures r.None? ==> forall tr :: tr in Successors(p, s) ==> tr.action != a
  {
    FirstWithAction(Successors(p, s), a)
  }

  function FirstWithAction(ts: seq<Transition>, a: Action): (r: Option<Transition>)
    ensures r.Some? ==> r.value in ts && r.value.action == a
    ensures r.None? ==> forall tr :: tr in ts ==> tr.action != a
  {
    if ts == [] then None
    else if ts[0].action == a then Some(ts[0])
    else FirstWithAction(ts[1..], a)
  }

  /** Replays an action sequence from a state: the state it ends in and the
      sum of the step costs, or None when some action is not legal. */
  function Follow(p: Problem, s: State, acts: seq<Action>): Option<Arrival>
    decreases |acts|
  {
    if acts == [] then Some(Arrival(s, 0))
    else match Step(p, s, acts[0])
      case None => None
      case Some(tr) =>
        match Follow(p, tr.succ, acts[1..])
        case None => None
        case Some(rest) => Some(Arrival(rest.state, tr.stepCost + rest.cost))
  }

  /** getCostOfActions: the total cost of an action sequence taken from the
      start, None for a sequence that is not made of legal moves. Every prefix
      of a legal sequence is legal and costs no more. */
  function CostOfActions(p: Problem, acts: seq<Action>): (r: Option<nat>)
    ensures r.Some? <==> Follow(p, p.start, acts).Some?
    ensures r.Some? ==> forall i :: 0 <= i <= |acts| ==>
      Follow(p, p.start, acts[..i]).Some? && Follow(p, p.start, acts[..i]).value.cost <= r.value
  {
    match Follow(p, p.start, acts)
    case None => None
    case Some(a) =>
      PrefixesCheaper(p, acts, a);
      Some(a.cost)
  }

  /** With step costs never negative, no prefix of a legal sequence costs
      more than the whole. */
  lemma {:induction false} PrefixesCheaper(p: Problem, acts: seq<Action>, a: Arrival)
    requires Follow(p, p.start, acts) == Some(a)
    ensures forall i :: 0 <= i <= |acts| ==>
      Follow(p, p.start, acts[..i]).Some? && Follow(p, p.start, acts[..i]).value.cost <= a.cost
    decreases |acts|
  {
    if acts == [] {
      assert acts[..0] == [];
    } else {
      var pre, b, tr := LastStep(p, acts);
      PrefixesCheaper(p, pre, b);
      forall i | 0 <= i <= |acts|
        ensures Follow(p, p.start, acts[..i]).Some? && Follow(p, p.start, acts[..i]).value.cost <= a.cost
      {
        if i < |acts| {
          assert acts[..i] == pre[..i];
        } else {
          assert acts[..i] == acts;
        }
      }
    }
  }

  /** A goal start makes the empty plan both a shortest and a cheapest path
      to a goal. */
  lemma StartIsGoal(p: Problem)
    requires IsGoal(p, p.start)
    ensures Shortest(p, []) && Cheapest(p, [])
  {
  }

  /** The action sequence, taken from the start, ends in a goal state. */
  predicate ReachesGoal(p: Problem, acts: seq<Action>)
  {
    var r := Follow(p, p.start, acts);
    r.Some? && IsGoal(p, r.value.state)
  }

  /** The sequence reaches a goal and no sequence reaching a goal costs less. */
  ghost predicate Cheapest(p: Problem, path: seq<Action>)
  {
    ReachesGoal(p, path) &&
    forall acts :: ReachesGoal(p, acts) ==> Follow(p, p.start, path).value.cost <= Follow(p, p.start, acts).value.cost
  }

  /** The sequence reaches a goal and no sequence reaching a goal is shorter. */
  ghost predicate Shortest(p: Problem, path: seq<Action>)
  {
    ReachesGoal(p, path) && forall acts :: ReachesGoal(p, acts) ==> |path| <= |acts|
  }

  /** No action sequence from the start ends in a goal state. */
  ghost predicate NoGoalReachable(p: Problem)
  {
    forall acts :: !ReachesGoal(p, acts)
  }

  /** The action sequence, taken from the start, ends in x. */
  ghost predicate Reaches(p: Problem, acts: seq<Action>, x: State)
  {
    Follow(p, p.start, acts).Some? && Follow(p, p.start, acts).value.state == x
  }

  /** Some action sequence leads from the start to s. */
  ghost predicate Reachable(p: Problem, s: State)
  {
    exists acts :: Reaches(p, acts, s)
  }

  /** Every state the search can ever see: the start, the listed states and
      every successor. */
  function States(p: Problem): set<State>
  {
    {p.start} + p.graph.Keys + (set s, tr | s in p.graph && tr in p.graph[s] :: tr.succ)
  }

  predicate Distinct(xs: seq<State>)
  {
    forall i, j :: 0 <= i < j < |xs| ==> xs[i] != xs[j]
  }

  lemma DistinctAppend(xs: seq<State>, x: State)
    requires Distinct(xs) && x !in xs
    ensures Distinct(xs + [x])
  {
  }

  /** The action sequence as the list of its actions, reversed (list.reverse). */
  function Reversed(xs: seq<Action>): (r: seq<Action>)
    ensures |r| == |xs|
    ensures forall k :: 0 <= k < |xs| ==> r[k] == xs[|xs| - 1 - k]
  {
    if xs == [] then [] else [xs[|xs| - 1]] + Reversed(xs[..|xs| - 1])
  }

  /** Exploring one more known state leaves fewer known states unexplored. */
  lemma FewerUnexplored(known: set<State>, explored: set<State>, s: State)
    requires s in known && s !in explored
    ensures |known - (explored + {s})| < |known - explored|
  {
    var rest := known - (explored + {s});
    assert known - explored == rest + {s} && s !in rest;
  }

  /** A successor of a known state is a known state. */
  lemma SuccessorInStates(p: Problem, s: State, tr: Transition)
    requires tr in Successors(p, s)
    ensures tr.succ in States(p)
  {
    assert s in p.graph;
  }

  /** In a well-formed problem an action of a successor triple replays exactly
      that triple. */
  lemma {:induction false} StepOfSuccessor(p: Problem, s: State, tr: Transition)
    requires WellFormed(p)
    requires tr in Successors(p, s)
    ensures Step(p, s, tr.action) == Some(tr)
  {
    var ts := Successors(p, s);
    var i :| 0 <= i < |ts| && ts[i] == tr;
    FirstIsUnique(ts, i);
  }

  lemma {:induction false} FirstIsUnique(ts: seq<Transition>, i: nat)
    requires i < |ts|
    requires forall j, k :: 0 <= j < k < |ts| ==> ts[j].action != ts[k].action
    ensures FirstWithAction(ts, ts[i].action) == Some(ts[i])
  {
    if i > 0 {
      assert ts[0].action != ts[i].action;
      FirstIsUnique(ts[1..], i - 1);
    }
  }

  /** Replaying a longer sequence is replaying its prefix and then one more step. */
  lemma {:induction false} FollowAppend(p: Problem, s: State, acts: seq<Action>, x: Action)
    ensures Follow(p, s, acts + [x]) ==
      match Follow(p, s, acts)
      case None => None
      case Some(a) =>
        match Step(p, a.state, x)
        case None => None
        case Some(tr) => Some(Arrival(tr.succ, a.cost + tr.stepCost))
    decreases |acts|
  {
    if acts == [] {
      assert [] + [x] == [x];
      assert [x][1..] == [];
    } else {
      assert (acts + [x])[0] == acts[0];
      assert (acts + [x])[1..] == acts[1..] + [x];
      match Step(p, s, acts[0])
      case None =>
      case Some(tr) =>
        FollowAppend(p, tr.succ, acts[1..], x);
    }
  }

  /** One legal step after a replayable sequence. */
  lemma {:induction false} FollowExtend(p: Problem, s: State, acts: seq<Action>, a: Arrival, tr: Transition)
    requires Follow(p, s, acts) == Some(a)
    requires Step(p, a.state, tr.action) == Some(tr)
    ensures Follow(p, s, acts + [tr.action]) == Some(Arrival(tr.succ, a.cost + tr.stepCost))
    decreases |acts|
  {
    if acts == [] {
      assert [] + [tr.action] == [tr.action];
      assert [tr.action][1..] == [];
    } else {
      var ext := acts + [tr.action];
      assert ext[0] == acts[0] && ext[1..] == acts[1..] + [tr.action];
      var t0 := Step(p, s, acts[0]).value;
      var rest := Follow(p, t0.succ, acts[1..]).value;
      FollowExtend(p, t0.succ, acts[1..], rest, tr);
      assert Step(p, s, ext[0]) == Some(t0);
      assert Follow(p, t0.succ, ext[1..]) == Some(Arrival(tr.succ, rest.cost + tr.stepCost));
    }
  }

  /** Replaying a successor triple's action first, then the rest from that
      successor. */
  lemma FollowPrepend(p: Problem, s: State, tr: Transition, rest: seq<Action>)
    requires WellFormed(p)
    requires tr in Successors(p, s)
    ensures Follow(p, s, [tr.action] + rest).Some? == Follow(p, tr.succ, rest).Some?
    ensures Follow(p, tr.succ, rest).Some? ==> Follow(p, s, [tr.action] + rest).value.state == Follow(p, tr.succ, rest).value.state
  {
    StepOfSuccessor(p, s, tr);
    assert ([tr.action] + rest)[0] == tr.action;
    assert ([tr.action] + rest)[1..] == rest;
  }

  /** Extending a replayable sequence by the action of a successor triple of
      its end state reaches that successor at the summed cost. */
  lemma ExtendBySuccessor(p: Problem, acts: seq<Action>, a: Arrival, tr: Transition)
    requires WellFormed(p)
    requires Follow(p, p.start, acts) == Some(a)
    requires tr in Successors(p, a.state)
    ensures Follow(p, p.start, acts + [tr.action]) == Some(Arrival(tr.succ, a.cost + tr.stepCost))
  {
    StepOfSuccessor(p, a.state, tr);
    FollowExtend(p, p.start, acts, a, tr);
  }

  /** Unfolds getCostOfActions on a replayable sequence: a helper that keeps
      the Follow fact of the caller apart from the unfolding. */
  lemma CostOfReplay(p: Problem, acts: seq<Action>, a: Arrival)
    requires Follow(p, p.start, acts) == Some(a)
    ensures CostOfActions(p, acts) == Some(a.cost)
  {
  }

  /** getCostOfActions of a replayable sequence extended by one legal step. */
  lemma CostOfExtension(p: Problem, acts: seq<Action>, a: Arrival, tr: Transition)
    requires Follow(p, p.start, acts) == Some(a)
    requires Step(p, a.state, tr.action) == Some(tr)
    ensures CostOfActions(p, acts + [tr.action]) == Some(a.cost + tr.stepCost)
  {
    FollowExtend(p, p.start, acts, a, tr);
    CostOfReplay(p, acts + [tr.action], Arrival(tr.succ, a.cost + tr.stepCost));
  }

  /** A sequence that replays to s witnesses that s is reachable. */
  lemma ReachedBy(p: Problem, acts: seq<Action>, s: State)
    requires Reaches(p, acts, s)
    ensures Reachable(p, s)
  {
  }

  /** A successor of a reachable state is reachable. */
  lemma ReachableStep(p: Problem, s: State, tr: Transition)
    requires WellFormed(p)
    requires Reachable(p, s) && tr in Successors(p, s)
    ensures Reachable(p, tr.succ)
  {
    var acts :| Reaches(p, acts, s);
    ExtendBySuccessor(p, acts, Follow(p, p.start, acts).value, tr);
    ReachedBy(p, acts + [tr.action], tr.succ);
  }

  /** Splitting a non-empty replayable sequence into its prefix and its last step. */
  lemma LastStep(p: Problem, acts: seq<Action>) returns (pre: seq<Action>, b: Arrival, tr: Transition)
    requires |acts| > 0
    requires Follow(p, p.start, acts).Some?
    ensures acts == pre + [tr.action]
    ensures Follow(p, p.start, pre) == Some(b)
    ensures tr in Successors(p, b.state)
    ensures Follow(p, p.start, acts).value == Arrival(tr.succ, b.cost + tr.stepCost)
  {
    pre := acts[..|acts| - 1];
    assert acts == pre + [acts[|acts| - 1]];
    FollowAppend(p, p.start, pre, acts[|acts| - 1]);
    b := Follow(p, p.start, pre).value;
    tr := Step(p, b.state, acts[|acts| - 1]).value;
  }

  /** Every state a replay from a known state reaches is known. */
  lemma {:induction false} FollowInStates(p: Problem, s: State, acts: seq<Action>)
    requires s in States(p)
    requires Follow(p, s, acts).Some?
    ensures Follow(p, s, acts).value.state in States(p)
    decreases |acts|
  {
    if acts != [] {
      var tr := Step(p, s, acts[0]).value;
      SuccessorInStates(p, s, tr);
      FollowInStates(p, tr.succ, acts[1..]);
    }
  }

  /** A set of states that holds the start and is closed under successors
      holds every state reachable from the start. */
  lemma {:induction false} ClosedContainsReachable(p: Problem, closed: set<State>, s: State, acts: seq<Action>)
    requires s in closed
    requires forall u, tr :: u in closed && tr in Successors(p, u) ==> tr.succ in closed
    requires Follow(p, s, acts).Some?
    ensures Follow(p, s, acts).value.state in closed
    decreases |acts|
  {
    if acts != [] {
      var tr := Step(p, s, acts[0]).value;
      ClosedContainsReachable(p, closed, tr.succ, acts[1..]);
    }
  }

  /** If the closed set also holds no goal, no goal is reachable. */
  lemma ClosedWithoutGoal(p: Problem, closed: set<State>)
    requires p.start in closed
    requires forall u, tr :: u in closed && tr in Successors(p, u) ==> tr.succ in closed
    requires forall u :: u in closed ==> !IsGoal(p, u)
    ensures NoGoalReachable(p)
  {
    forall acts | Follow(p, p.start, acts).Some?
      ensures !ReachesGoal(p, acts)
    {
      ClosedContainsReachable(p, closed, p.start, acts);
    }
  }

  /** Reversing the list after appending an action puts it in front. */
  lemma ReversedAppend(xs: seq<Action>, x: Action)
    ensures Reversed(xs + [x]) == [x] + Reversed(xs)
  {
    assert (xs + [x])[..|xs|] == xs;
  }
}
